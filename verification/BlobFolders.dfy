/**
 * The blob tools of src/tools/BlobFolderTools.py: list the top-level
 * folders of a container, list the shareable URLs of the blobs under a
 * folder, and download those blobs into a local directory. The storage
 * account is reached through a `BlobStore` record of listing functions;
 * the files written locally are recorded as events.
 */
module BlobFolders {
  import opened Wrappers
  import opened Text
  import opened FaceModel

  /** The three settings `os.getenv` reads; `None` when unset. */
  datatype Env = Env(account: Option<string>, container: Option<string>, sasToken: Option<string>)

  /** Python truthiness of an optional string: set and non-empty. */
  predicate Truthy(v: Option<string>)
  {
    v.Some? && v.value != ""
  }

  /** `all([account, container, sas_token])`. */
  predicate Configured(env: Env)
  {
    Truthy(env.account) && Truthy(env.container) && Truthy(env.sasToken)
  }

  const MissingEnvMessage := "Missing required environment variables: AZURE_STORAGE_ACCOUNT, AZURE_STORAGE_CONTAINER, AZURE_STORAGE_SAS_TOKEN"

  /** The container client's address: account URL, container name, and the SAS token as credential. */
  datatype ContainerRef = ContainerRef(accountUrl: string, container: string, credential: string)

  function AccountUrl(account: string): string
  {
    "https://" + account + ".blob.core.windows.net"
  }

  function RefOf(env: Env): ContainerRef
    requires Configured(env)
  {
    ContainerRef(AccountUrl(env.account.value), env.container.value, env.sasToken.value)
  }

  /**
   * The storage service as the tools see it: the blob names `walk_blobs`
   * with delimiter "/" yields, and those `list_blobs` yields for a prefix.
   */
  datatype BlobStore = BlobStore(
    walkBlobs: ContainerRef -> seq<string>,
    listBlobs: (ContainerRef, string) -> seq<string>)

  /** What the tools ask of the service and of the local file system, in order. */
  datatype Event =
    | WalkBlobs(ref: ContainerRef)
    | ListBlobs(ref: ContainerRef, prefix: string)
    | MakeDirs(dir: string)
    | Saved(blobName: string, localPath: string)

  /** A name ending in "/" marks a virtual directory. */
  predicate IsDirMarker(name: string)
  {
    EndsWith(name, "/")
  }

  // ---------------------------------------------------------------- folders

  /** The folder names of a walk: directory markers with their trailing slashes removed, in listing order. */
  function Folders(names: seq<string>): (r: seq<string>)
    ensures |r| <= |names|
  {
    if names == [] then []
    else
      var last := names[|names| - 1];
      Folders(names[..|names| - 1]) + (if IsDirMarker(last) then [RStripChar(last, '/')] else [])
  }

  /** Listing more names only adds folders after the ones already found. */
  lemma {:induction false} FoldersAppend(a: seq<string>, b: seq<string>)
    ensures Folders(a + b) == Folders(a) + Folders(b)
    decreases |b|
  {
    if b == [] {
      assert a + b == a;
    } else {
      var b' := b[..|b| - 1];
      assert (a + b)[..|a + b| - 1] == a + b';
      FoldersAppend(a, b');
    }
  }

  /**
   * Every folder comes from a directory marker with its slashes stripped,
   * and every directory marker yields its folder; no folder ends in "/".
   */
  lemma {:induction false} FoldersSpec(names: seq<string>)
    ensures forall f :: f in Folders(names) ==>
              (f == [] || f[|f| - 1] != '/')
              && exists n :: n in names && IsDirMarker(n) && RStripChar(n, '/') == f
    ensures forall n :: n in names && IsDirMarker(n) ==> RStripChar(n, '/') in Folders(names)
  {
    if names != [] {
      var init := names[..|names| - 1];
      FoldersSpec(init);
      assert names == init + [names[|names| - 1]];
    }
  }

  /** There are no folders exactly when no listed name is a directory marker. */
  lemma NoFoldersIffNoMarkers(names: seq<string>)
    ensures Folders(names) == [] <==> forall n :: n in names ==> !IsDirMarker(n)
  {
    FoldersSpec(names);
    if Folders(names) != [] {
      var f := Folders(names)[0];
      assert f in Folders(names);
    }
  }

  const NoFoldersMessage := "No folders found in the container."

  /** One bullet line per folder. */
  function FolderLines(folders: seq<string>): (r: seq<string>)
    ensures |r| == |folders|
    ensures forall k :: 0 <= k < |folders| ==> r[k] == "- " + folders[k]
  {
    seq(|folders|, k requires 0 <= k < |folders| => "- " + folders[k])
  }

  /** `PROMPT_CHOOSE_FOLDER` with the folder list filled in. */
  function ChooseFolderPrompt(folderList: string): string
  {
    "Available folders in the Azure Blob container:\n" + folderList + "\n"
    + "Please reply with a list of folder names you want to use for enrollment. Each folder should contain face images for a single person, and the folder name should be the person's name or info. "
    + "After you choose, I will download all images from those folders or use their URLs for further processing."
  }

  /** The three answers of the folder listing; `Text` gives the message returned. */
  datatype FolderReply = EnvNotSet | NoFolders | ChooseFolder(folders: seq<string>)
  {
    function Text(): string
    {
      match this
      case EnvNotSet => MissingEnvMessage
      case NoFolders => NoFoldersMessage
      case ChooseFolder(folders) => ChooseFolderPrompt(Join(FolderLines(folders), "\n"))
    }
  }

  /** `list_blob_folders_and_choose`: its answer and the calls it makes. */
  function ListFoldersAndChoose(env: Env, store: BlobStore): (FolderReply, seq<Event>)
  {
    if !Configured(env) then (EnvNotSet, [])
    else
      var ref := RefOf(env);
      var folders := Folders(store.walkBlobs(ref));
      if folders == [] then (NoFolders, [WalkBlobs(ref)])
      else (ChooseFolder(folders), [WalkBlobs(ref)])
  }

  /**
   * Without all three settings nothing is listed; otherwise the container
   * is walked once, and the choice is offered exactly when some walked
   * name is a directory marker, listing the folders in walk order.
   */
  lemma ListFoldersOutcome(env: Env, store: BlobStore)
    ensures !Configured(env) <==> ListFoldersAndChoose(env, store).0 == EnvNotSet
    ensures !Configured(env) <==> ListFoldersAndChoose(env, store).1 == []
    ensures Configured(env) ==>
              ListFoldersAndChoose(env, store).1 == [WalkBlobs(RefOf(env))]
              && (ListFoldersAndChoose(env, store).0 == NoFolders
                  <==> forall n :: n in store.walkBlobs(RefOf(env)) ==> !IsDirMarker(n))
              && (ListFoldersAndChoose(env, store).0.ChooseFolder? ==>
                    ListFoldersAndChoose(env, store).0.folders == Folders(store.walkBlobs(RefOf(env))))
  {
    if Configured(env) {
      NoFoldersIffNoMarkers(store.walkBlobs(RefOf(env)));
    }
  }

  // ---------------------------------------------------------------- public URLs

  /** One entry of `items`: the blob name and its URL with the SAS token. */
  datatype Item = Item(name: string, urlWithToken: string)

  /** What `list_public_image_urls` returns: the one-message list, or the items and their URLs joined. */
  datatype UrlListing = EnvMissing(messages: seq<string>) | Listing(items: seq<Item>, urlsTxt: string)

  /** The part of a blob URL before the blob name. */
  function UrlBase(ref: ContainerRef): string
  {
    ref.accountUrl + "/" + ref.container + "/"
  }

  function ItemFor(ref: ContainerRef, name: string): Item
  {
    Item(name, UrlBase(ref) + name + "?" + ref.credential)
  }

  /** The blob name a URL of this container carries. */
  function UrlName(ref: ContainerRef, url: string): string
    requires |UrlBase(ref)| + |ref.credential| + 1 <= |url|
  {
    url[|UrlBase(ref)|..|url| - |ref.credential| - 1]
  }

  /** The blob name is recovered from its URL. */
  lemma UrlNameRoundTrip(ref: ContainerRef, name: string)
    ensures var url := ItemFor(ref, name).urlWithToken;
      |UrlBase(ref)| + |ref.credential| + 1 <= |url| && UrlName(ref, url) == name
  {
    var url := ItemFor(ref, name).urlWithToken;
    assert url == UrlBase(ref) + name + ("?" + ref.credential);
  }

  /** The items for a listing: one per blob that is not a directory marker, in listing order. */
  function Items(ref: ContainerRef, names: seq<string>): (r: seq<Item>)
    ensures |r| <= |names|
  {
    if names == [] then []
    else
      var last := names[|names| - 1];
      Items(ref, names[..|names| - 1]) + (if IsDirMarker(last) then [] else [ItemFor(ref, last)])
  }

  /** The blobs that are not directory markers, in listing order. */
  function NonDirs(names: seq<string>): (r: seq<string>)
    ensures |r| <= |names|
  {
    if names == [] then []
    else
      var last := names[|names| - 1];
      NonDirs(names[..|names| - 1]) + (if IsDirMarker(last) then [] else [last])
  }

  /** The file blobs are exactly the listed names that are not directory markers, kept in order. */
  lemma {:induction false} NonDirsSpec(a: seq<string>, b: seq<string>)
    ensures NonDirs(a + b) == NonDirs(a) + NonDirs(b)
    ensures forall x :: x in NonDirs(b) <==> x in b && !IsDirMarker(x)
    decreases |b|
  {
    if b == [] {
      assert a + b == a;
    } else {
      var b' := b[..|b| - 1];
      assert (a + b)[..|a + b| - 1] == a + b';
      NonDirsSpec(a, b');
      assert b == b' + [b[|b| - 1]];
    }
  }

  /** Item `k` is the URL entry of file blob `k`. */
  lemma {:induction false} ItemsFollowNonDirs(ref: ContainerRef, names: seq<string>)
    ensures |Items(ref, names)| == |NonDirs(names)|
    ensures forall k :: 0 <= k < |NonDirs(names)| ==> Items(ref, names)[k] == ItemFor(ref, NonDirs(names)[k])
  {
    if names != [] {
      ItemsFollowNonDirs(ref, names[..|names| - 1]);
    }
  }

  /** The URLs of the items, in order. */
  function UrlsOf(items: seq<Item>): (r: seq<string>)
    ensures |r| == |items|
    ensures forall k :: 0 <= k < |items| ==> r[k] == items[k].urlWithToken
  {
    seq(|items|, k requires 0 <= k < |items| => items[k].urlWithToken)
  }

  /** `list_public_image_urls`: what it returns and the calls it makes. */
  function ListUrls(env: Env, folder: string, store: BlobStore): (UrlListing, seq<Event>)
  {
    if !Configured(env) then (EnvMissing([MissingEnvMessage]), [])
    else
      var ref := RefOf(env);
      var items := Items(ref, store.listBlobs(ref, folder + "/"));
      (Listing(items, Join(UrlsOf(items), "\n")), [ListBlobs(ref, folder + "/")])
  }

  /** The loop over the listed blobs. */
  method CollectItems(ref: ContainerRef, names: seq<string>) returns (items: seq<Item>)
    ensures items == Items(ref, names)
  {
    items := [];
    var i := 0;
    while i < |names|
      invariant i <= |names|
      invariant items == Items(ref, names[..i])
    {
      var name := names[i];
      assert names[..i + 1][..i] == names[..i];
      if !EndsWith(name, "/") {
        var url := ref.accountUrl + "/" + ref.container + "/" + name + "?" + ref.credential;
        items := items + [Item(name, url)];
      }
      i := i + 1;
    }
    assert names[..i] == names;
  }

  method ListPublicImageUrls(env: Env, folder: string, store: BlobStore)
    returns (listing: UrlListing, events: seq<Event>)
    ensures (listing, events) == ListUrls(env, folder, store)
  {
    if !Configured(env) {
      return EnvMissing([MissingEnvMessage]), [];
    }
    var ref := ContainerRef(AccountUrl(env.account.value), env.container.value, env.sasToken.value);
    var names := store.listBlobs(ref, folder + "/");
    events := [ListBlobs(ref, folder + "/")];
    var items := CollectItems(ref, names);
    listing := Listing(items, Join(UrlsOf(items), "\n"));
  }

  /**
   * The listing has one item per file blob, in listing order; each URL is
   * the container's base, the blob name and the SAS token, and gives the
   * name back; `urls_txt` joins the same URLs in the same order.
   */
  lemma ListedUrls(env: Env, folder: string, store: BlobStore)
    requires Configured(env)
    ensures var ref := RefOf(env); var names := store.listBlobs(ref, folder + "/");
      var l := ListUrls(env, folder, store).0;
      l.Listing? && |l.items| == |NonDirs(names)|
      && (forall k :: 0 <= k < |l.items| ==>
            l.items[k] == ItemFor(ref, NonDirs(names)[k])
            && StartsWith(l.items[k].urlWithToken, "https://" + env.account.value + ".blob.core.windows.net/")
            && EndsWith(l.items[k].urlWithToken, "?" + env.sasToken.value))
      && l.urlsTxt == Join(UrlsOf(l.items), "\n")
  {
    var ref := RefOf(env);
    var names := store.listBlobs(ref, folder + "/");
    ItemsFollowNonDirs(ref, names);
    var l := ListUrls(env, folder, store).0;
    forall k | 0 <= k < |l.items|
      ensures StartsWith(l.items[k].urlWithToken, "https://" + env.account.value + ".blob.core.windows.net/")
      ensures EndsWith(l.items[k].urlWithToken, "?" + env.sasToken.value)
    {
      var name := NonDirs(names)[k];
      var url := l.items[k].urlWithToken;
      assert url == ("https://" + env.account.value + ".blob.core.windows.net/") + (env.container.value + "/" + name)
                    + ("?" + env.sasToken.value);
    }
  }

  // ---------------------------------------------------------------- downloads

  /** `os.path.join(a, b)` on POSIX: an absolute `b` replaces `a`. */
  function PathJoin(a: string, b: string): string
  {
    if StartsWith(b, "/") then b
    else if a == [] || EndsWith(a, "/") then a + b
    else a + "/" + b
  }

  /**
   * The joined path ends with the relative part; it begins with the
   * directory unless the relative part is absolute, in which case the
   * directory is dropped.
   */
  lemma PathJoinSpec(a: string, b: string)
    ensures EndsWith(PathJoin(a, b), b)
    ensures StartsWith(b, "/") ==> PathJoin(a, b) == b
    ensures !StartsWith(b, "/") ==> StartsWith(PathJoin(a, b), a)
    ensures a != [] ==> exists k :: 0 <= k < |PathJoin(a, b)| && PathJoin(a, b)[k] == '/'
  {
    var p := PathJoin(a, b);
    if StartsWith(b, "/") {
      assert p[0] == '/';
    } else if a == [] || EndsWith(a, "/") {
      assert p[|a|..] == b;
      assert p[..|a|] == a;
      if a != [] {
        assert p[|a| - 1] == '/';
      }
    } else {
      assert p == a + ("/" + b);
      assert p[|a|] == '/';
    }
  }

  /** The end of the last "/" of a path, 0 when there is none. */
  function LastSlashEnd(p: string): (r: nat)
    ensures r <= |p| && (r == 0 || p[r - 1] == '/')
    ensures forall k :: r <= k < |p| ==> p[k] != '/'
  {
    if p == [] then 0
    else if p[|p| - 1] == '/' then |p|
    else LastSlashEnd(p[..|p| - 1])
  }

  /** `os.path.dirname` on POSIX: the part up to the last "/", trailing slashes removed unless it is all slashes. */
  function DirName(p: string): string
  {
    var head := p[..LastSlashEnd(p)];
    if head != [] && exists k :: 0 <= k < |head| && head[k] != '/' then RStripChar(head, '/') else head
  }

  /** The directory part is empty exactly when the path has no "/". */
  lemma DirNameEmpty(p: string)
    ensures DirName(p) == [] <==> forall k :: 0 <= k < |p| ==> p[k] != '/'
  {
    var head := p[..LastSlashEnd(p)];
    if head != [] && exists k :: 0 <= k < |head| && head[k] != '/' {
      var k :| 0 <= k < |head| && head[k] != '/';
      var r := RStripChar(head, '/');
      assert k < |r|;
    }
  }

  /** `folder_name.rstrip("/") + "/"`. */
  function Normalized(folder: string): string
  {
    RStripChar(folder, '/') + "/"
  }

  /** `blob.name[len(normalized_folder):]`. */
  function RelPath(folder: string, name: string): string
  {
    DropPrefix(name, |Normalized(folder)|)
  }

  /** For a blob under the listed prefix, the folder part and the relative path put back together give the name. */
  lemma RelPathRoundTrip(folder: string, name: string)
    requires StartsWith(name, folder + "/")
    ensures Normalized(folder) + RelPath(folder, name) == name
  {
    var s := RStripChar(folder, '/');
    var n := Normalized(folder);
    assert |n| <= |folder| + 1;
    forall k | 0 <= k < |n|
      ensures name[k] == n[k]
    {
      if k < |s| {
        assert name[k] == (folder + "/")[k] == folder[k];
      } else {
        assert (folder + "/")[k] == '/';
      }
    }
    assert name[..|n|] == n;
  }

  /**
   * A folder given with a trailing "/" makes every relative path absolute,
   * so its files are written outside the local directory.
   */
  lemma TrailingSlashEscapes(folder: string, localDir: string, name: string)
    requires EndsWith(folder, "/")
    requires StartsWith(name, folder + "/")
    ensures StartsWith(RelPath(folder, name), "/")
    ensures PathJoin(localDir, RelPath(folder, name)) == RelPath(folder, name)
  {
    var n := Normalized(folder);
    RelPathRoundTrip(folder, name);
    assert |n| <= |folder|;
    assert name[|n|] == (folder + "/")[|n|] == '/';
  }

  function LocalPath(folder: string, localDir: string, name: string): string
  {
    PathJoin(localDir, RelPath(folder, name))
  }

  /** Progress of the download loop: the files written, the events, and whether `os.makedirs("")` raised. */
  datatype Fetched = Fetched(files: seq<string>, events: seq<Event>, raised: bool)

  /** One blob of the loop: markers are skipped; otherwise its directory is made and the blob saved. */
  function FetchOne(st: Fetched, folder: string, localDir: string, name: string): Fetched
  {
    if IsDirMarker(name) then st
    else
      var p := LocalPath(folder, localDir, name);
      var d := DirName(p);
      if d == [] then Fetched(st.files, st.events, true)
      else Fetched(st.files + [p], st.events + [MakeDirs(d), Saved(name, p)], false)
  }

  /** The loop after the first `n` blobs; it stops at the first raise. */
  function Fetch(folder: string, localDir: string, names: seq<string>, n: nat): Fetched
    requires n <= |names|
  {
    if n == 0 then Fetched([], [], false)
    else
      var st := Fetch(folder, localDir, names, n - 1);
      if st.raised then st else FetchOne(st, folder, localDir, names[n - 1])
  }

  /** The exception `os.makedirs("")` raises. */
  const MakeDirsErrorText := "FileNotFoundError: [Errno 2] No such file or directory: ''"

  function NoFilesMessage(folder: string): string
  {
    "No files found in folder '" + folder + "'."
  }

  /** `RESULT_SUCCESS` filled in. */
  function SuccessMessage(folder: string, localDir: string, files: seq<string>): string
  {
    "Downloaded " + NatToString(|files|) + " files from folder '" + folder + "' to '" + localDir + "'.\nFiles:\n"
    + Join(files, "\n")
  }

  /** `download_blob_folder_from_container`: how it ends and the calls it makes. */
  function Download(env: Env, folder: string, localDir: string, store: BlobStore): (ToolOutcome, seq<Event>)
  {
    if !Configured(env) then (Returned(MissingEnvMessage), [])
    else
      var ref := RefOf(env);
      var names := store.listBlobs(ref, folder + "/");
      var st := Fetch(folder, localDir, names, |names|);
      var events := [ListBlobs(ref, folder + "/")] + st.events;
      if st.raised then (Raised(MakeDirsErrorText), events)
      else if st.files == [] then (Returned(NoFilesMessage(folder)), events)
      else (Returned(SuccessMessage(folder, localDir, st.files)), events)
  }

  /** Fetching one blob more is one more step of `FetchOne`. */
  lemma FetchNext(folder: string, localDir: string, names: seq<string>, i: nat)
    requires i < |names| && !Fetch(folder, localDir, names, i).raised
    ensures Fetch(folder, localDir, names, i + 1) == FetchOne(Fetch(folder, localDir, names, i), folder, localDir, names[i])
  {
  }

  /** The download loop. */
  method FetchAll(folder: string, localDir: string, names: seq<string>)
    returns (files: seq<string>, events: seq<Event>, raised: bool)
    ensures Fetched(files, events, raised) == Fetch(folder, localDir, names, |names|)
  {
    files, events, raised := [], [], false;
    var i := 0;
    while i < |names|
      invariant i <= |names|
      invariant Fetched(files, events, false) == Fetch(folder, localDir, names, i)
    {
      files, events, raised := FetchBlob(folder, localDir, names[i], files, events, names, i);
      if raised {
        StopsAfterRaise(folder, localDir, names, i + 1);
        return;
      }
      i := i + 1;
    }
  }

  /** The body of the download loop for one blob. */
  method FetchBlob(folder: string, localDir: string, name: string, files: seq<string>, events: seq<Event>,
                   ghost names: seq<string>, ghost i: nat)
    returns (files': seq<string>, events': seq<Event>, raised: bool)
    requires i < |names| && name == names[i]
    requires Fetched(files, events, false) == Fetch(folder, localDir, names, i)
    ensures Fetched(files', events', raised) == Fetch(folder, localDir, names, i + 1)
  {
    FetchNext(folder, localDir, names, i);
    files', events', raised := files, events, false;
    if EndsWith(name, "/") {
      return;
    }
    var normalized := RStripChar(folder, '/') + "/";
    var relPath := DropPrefix(name, |normalized|);
    var localPath := PathJoin(localDir, relPath);
    var dir := DirName(localPath);
    if dir == [] {
      raised := true;
      return;
    }
    events' := events + [MakeDirs(dir), Saved(name, localPath)];
    files' := files + [localPath];
  }

  /** Once raised, the loop's state no longer changes. */
  lemma {:induction false} StopsAfterRaise(folder: string, localDir: string, names: seq<string>, n: nat)
    requires n <= |names| && Fetch(folder, localDir, names, n).raised
    ensures Fetch(folder, localDir, names, |names|) == Fetch(folder, localDir, names, n)
    decreases |names| - n
  {
    if n < |names| {
      StopsAfterRaise(folder, localDir, names, n + 1);
    }
  }

  method DownloadBlobFolder(env: Env, folder: string, localDir: string, store: BlobStore)
    returns (outcome: ToolOutcome, events: seq<Event>)
    ensures (outcome, events) == Download(env, folder, localDir, store)
  {
    if !Configured(env) {
      return Returned(MissingEnvMessage), [];
    }
    var ref := ContainerRef(AccountUrl(env.account.value), env.container.value, env.sasToken.value);
    var names := store.listBlobs(ref, folder + "/");
    var files, fetched, raised := FetchAll(folder, localDir, names);
    events := [ListBlobs(ref, folder + "/")] + fetched;
    if raised {
      return Raised(MakeDirsErrorText), events;
    }
    if files == [] {
      return Returned(NoFilesMessage(folder)), events;
    }
    outcome := Returned(SuccessMessage(folder, localDir, files));
  }

  /**
   * The loop state after the file blobs `nd`, none raising: file `k` is the
   * local path of blob `k`, and its directory is made just before it is saved.
   */
  predicate FetchedAll(st: Fetched, folder: string, localDir: string, nd: seq<string>)
  {
    !st.raised && |st.files| == |nd| && |st.events| == 2 * |nd|
    && forall k :: 0 <= k < |nd| ==>
         st.files[k] == LocalPath(folder, localDir, nd[k])
         && st.events[2 * k] == MakeDirs(DirName(st.files[k]))
         && st.events[2 * k + 1] == Saved(nd[k], st.files[k])
  }

  /** Under a non-empty local directory every local path has a directory part. */
  lemma LocalPathHasDir(folder: string, localDir: string, name: string)
    requires localDir != []
    ensures DirName(LocalPath(folder, localDir, name)) != []
  {
    PathJoinSpec(localDir, RelPath(folder, name));
    DirNameEmpty(LocalPath(folder, localDir, name));
  }

  /** With a non-empty local directory, one more file blob never raises and is saved after the others. */
  lemma FetchOneKeeps(st: Fetched, folder: string, localDir: string, nd: seq<string>, name: string)
    requires localDir != [] && !IsDirMarker(name)
    requires FetchedAll(st, folder, localDir, nd)
    ensures FetchedAll(FetchOne(st, folder, localDir, name), folder, localDir, nd + [name])
  {
    var p := LocalPath(folder, localDir, name);
    LocalPathHasDir(folder, localDir, name);
    var st' := FetchOne(st, folder, localDir, name);
    assert st'.files == st.files + [p];
    assert st'.events == st.events + [MakeDirs(DirName(p)), Saved(name, p)];
    var nd' := nd + [name];
    forall k | 0 <= k < |nd'|
      ensures st'.files[k] == LocalPath(folder, localDir, nd'[k])
      ensures st'.events[2 * k] == MakeDirs(DirName(st'.files[k]))
      ensures st'.events[2 * k + 1] == Saved(nd'[k], st'.files[k])
    {
      if k < |nd| {
        assert st'.files[k] == st.files[k] && nd'[k] == nd[k];
        assert st'.events[2 * k] == st.events[2 * k];
        assert st'.events[2 * k + 1] == st.events[2 * k + 1];
      }
    }
  }

  /**
   * With a non-empty local directory nothing raises, and file `k` is the
   * local path of file blob `k`: the blob name with the folder part
   * replaced by the local directory, in listing order, each saved after
   * its directory is made.
   */
  lemma {:induction false} FetchedFiles(folder: string, localDir: string, names: seq<string>, n: nat)
    requires n <= |names| && localDir != []
    ensures FetchedAll(Fetch(folder, localDir, names, n), folder, localDir, NonDirs(names[..n]))
  {
    if n > 0 {
      FetchedFiles(folder, localDir, names, n - 1);
      assert names[..n][..n - 1] == names[..n - 1];
      var name := names[n - 1];
      if !IsDirMarker(name) {
        FetchOneKeeps(Fetch(folder, localDir, names, n - 1), folder, localDir, NonDirs(names[..n - 1]), name);
      }
    }
  }

  /**
   * The download writes the same blobs the URL listing names, in the same
   * order, and reports their count; with no file blob it says so.
   */
  lemma DownloadMatchesListing(env: Env, folder: string, localDir: string, store: BlobStore)
    requires Configured(env) && localDir != []
    ensures var names := store.listBlobs(RefOf(env), folder + "/");
      var files := Fetch(folder, localDir, names, |names|).files;
      var items := ListUrls(env, folder, store).0.items;
      |files| == |items|
      && (forall k :: 0 <= k < |items| ==> files[k] == LocalPath(folder, localDir, items[k].name))
      && (items == [] ==> Download(env, folder, localDir, store).0 == Returned(NoFilesMessage(folder)))
      && (items != [] ==> Download(env, folder, localDir, store).0 == Returned(SuccessMessage(folder, localDir, files)))
  {
    var names := store.listBlobs(RefOf(env), folder + "/");
    FetchedFiles(folder, localDir, names, |names|);
    assert names[..|names|] == names;
    ItemsFollowNonDirs(RefOf(env), names);
  }

  /**
   * With an empty local directory, the first file blob directly under the
   * folder makes `os.makedirs("")` raise, after the blobs before it were saved.
   */
  lemma EmptyLocalDirRaises(folder: string, names: seq<string>, i: nat)
    requires i < |names| && !Fetch(folder, "", names, i).raised
    requires !IsDirMarker(names[i])
    requires forall k :: 0 <= k < |RelPath(folder, names[i])| ==> RelPath(folder, names[i])[k] != '/'
    ensures Fetch(folder, "", names, |names|).raised
    ensures Fetch(folder, "", names, |names|).files == Fetch(folder, "", names, i).files
  {
    var p := LocalPath(folder, "", names[i]);
    assert p == RelPath(folder, names[i]);
    DirNameEmpty(p);
    StopsAfterRaise(folder, "", names, i + 1);
  }
}
