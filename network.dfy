/**
 * The remote hierarchical store as the gateway sees it, the directory walk
 * (`get_final_subdirectory`) and the file fetch (`fetch_file`). The store is
 * a value: listings by key, the user's root, and the name service's table of
 * service home directories. Every lookup the source unwraps is a typed
 * failure here.
 */
module Network {
  import opened Wrappers

  newtype byte = x: int | 0 <= x < 256

  /** Opaque reference to a directory in the store. */
  datatype DirKey = DirKey(id: nat)

  /** A named child of a listing: a sub-directory's key, or a file's content. */
  datatype Named<T> = Named(name: string, item: T)

  /** One directory: its sub-directories and its files, in listing order. */
  datatype Listing = Listing(subDirs: seq<Named<DirKey>>, files: seq<Named<seq<byte>>>)

  /** What the store holds: every listing, the user's root, and each (long name, service) home. */
  datatype Store = Store(
    listings: map<DirKey, Listing>,
    userRoot: DirKey,
    serviceHomes: map<(string, string), DirKey>)

  /** Why a walk stopped: no sub-directory of that name, or a key the store cannot list. */
  datatype WalkError = NoSuchSubdirectory(name: string) | ListingUnavailable(key: DirKey)

  /** Why a fetch stopped. */
  datatype FetchError =
    | ServiceNotFound(longName: string, service: string)
    | DirectoryError(cause: WalkError)
    | FileNotFound(fileName: string)
    | ReadFailed

  /** Index of the first entry called `name` (`iter().find` on the names). */
  function FindByName<T>(entries: seq<Named<T>>, name: string): (r: Option<nat>)
    ensures r.Some? ==> r.value < |entries| && entries[r.value].name == name
    ensures r.Some? ==> forall j :: 0 <= j < r.value ==> entries[j].name != name
    ensures r.None? ==> forall j :: 0 <= j < |entries| ==> entries[j].name != name
  {
    if |entries| == 0 then None
    else if entries[0].name == name then Some(0)
    else
      match FindByName(entries[1..], name)
      case None => None
      case Some(i) => Some(i + 1)
  }

  /** The listing stored under `key` (`DirectoryHelper::get`). */
  function GetListing(store: Store, key: DirKey): (r: Result<Listing, WalkError>)
    ensures r.Ok? <==> key in store.listings
    ensures r.Ok? ==> r.value == store.listings[key]
    ensures r.Err? ==> r.error == ListingUnavailable(key)
  {
    if key in store.listings then Ok(store.listings[key]) else Err(ListingUnavailable(key))
  }

  /** Where a walk begins: the given directory, or the user's root when none is given. */
  function StartListing(store: Store, start: Option<DirKey>): Result<Listing, WalkError>
  {
    match start
    case Some(key) => GetListing(store, key)
    case None => GetListing(store, store.userRoot)
  }

  /** One step of the walk: the listing of the first sub-directory called `token`. */
  function Step(store: Store, current: Listing, token: string): Result<Listing, WalkError>
  {
    match FindByName(current.subDirs, token)
    case None => Err(NoSuchSubdirectory(token))
    case Some(i) => GetListing(store, current.subDirs[i].item)
  }

  /** The listing reached from `current` by stepping through `tokens` in order. */
  function Walk(store: Store, current: Listing, tokens: seq<string>): Result<Listing, WalkError>
    decreases |tokens|
  {
    if |tokens| == 0 then Ok(current)
    else
      match Step(store, current, tokens[0])
      case Err(e) => Err(e)
      case Ok(next) => Walk(store, next, tokens[1..])
  }

  /** The walk from the starting directory (or the user's root). */
  function WalkFrom(store: Store, start: Option<DirKey>, tokens: seq<string>): Result<Listing, WalkError>
  {
    match StartListing(store, start)
    case Err(e) => Err(e)
    case Ok(first) => Walk(store, first, tokens)
  }

  /** `get_final_subdirectory`: reassigns the current listing once per token. */
  method GetFinalSubdirectory(store: Store, tokens: seq<string>, start: Option<DirKey>)
    returns (r: Result<Listing, WalkError>)
    ensures r == WalkFrom(store, start, tokens)
    ensures tokens == [] ==> r == StartListing(store, start)
  {
    var first := StartListing(store, start);
    if first.Err? {
      return Err(first.error);
    }
    var current := first.value;
    var i := 0;
    while i < |tokens|
      invariant 0 <= i <= |tokens|
      invariant Walk(store, first.value, tokens) == Walk(store, current, tokens[i..])
    {
      var next := Step(store, current, tokens[i]);
      if next.Err? {
        return Err(next.error);
      }
      assert tokens[i..][1..] == tokens[i + 1..];
      current := next.value;
      i := i + 1;
    }
    return Ok(current);
  }

  /** A walk through `t1 + t2` is a walk through `t1` followed by one through `t2`. */
  lemma {:induction false} WalkAppend(store: Store, current: Listing, t1: seq<string>, t2: seq<string>)
    ensures Walk(store, current, t1 + t2) ==
      match Walk(store, current, t1)
      case Err(e) => Err(e)
      case Ok(mid) => Walk(store, mid, t2)
    decreases |t1|
  {
    if |t1| == 0 {
      assert t1 + t2 == t2;
    } else {
      assert (t1 + t2)[0] == t1[0];
      assert (t1 + t2)[1..] == t1[1..] + t2;
      match Step(store, current, t1[0])
      case Err(e) =>
      case Ok(next) => WalkAppend(store, next, t1[1..], t2);
    }
  }

  /** `chain[i + 1]` is the listing one step below `chain[i]` by `tokens[i]`, for every token. */
  ghost predicate IsChain(store: Store, chain: seq<Listing>, tokens: seq<string>)
  {
    && |chain| == |tokens| + 1
    && forall i :: 0 <= i < |tokens| ==> Step(store, chain[i], tokens[i]) == Ok(chain[i + 1])
  }

  /** A successful walk found every token, in order, as a sub-directory of the previous listing. */
  lemma {:induction false} WalkSound(store: Store, current: Listing, tokens: seq<string>)
    requires Walk(store, current, tokens).Ok?
    ensures exists chain :: (IsChain(store, chain, tokens) && chain[0] == current
      && chain[|tokens|] == Walk(store, current, tokens).value)
    decreases |tokens|
  {
    if |tokens| == 0 {
      assert IsChain(store, [current], tokens);
    } else {
      var next := Step(store, current, tokens[0]).value;
      WalkSound(store, next, tokens[1..]);
      var rest :| IsChain(store, rest, tokens[1..]) && rest[0] == next
        && rest[|tokens| - 1] == Walk(store, next, tokens[1..]).value;
      var chain := [current] + rest;
      assert forall i :: 1 <= i < |tokens| ==> Step(store, chain[i], tokens[i]) == Ok(chain[i + 1]) by {
        forall i | 1 <= i < |tokens| ensures Step(store, chain[i], tokens[i]) == Ok(chain[i + 1]) {
          assert chain[i] == rest[i - 1] && tokens[i] == tokens[1..][i - 1];
        }
      }
      assert IsChain(store, chain, tokens);
    }
  }

  /** If every token is found in order, the walk succeeds and ends at the chain's last listing. */
  lemma {:induction false} WalkComplete(store: Store, chain: seq<Listing>, tokens: seq<string>)
    requires IsChain(store, chain, tokens)
    ensures Walk(store, chain[0], tokens) == Ok(chain[|tokens|])
    decreases |tokens|
  {
    if |tokens| > 0 {
      assert Step(store, chain[0], tokens[0]) == Ok(chain[1]);
      assert IsChain(store, chain[1..], tokens[1..]) by {
        forall i | 0 <= i < |tokens| - 1
          ensures Step(store, chain[1..][i], tokens[1..][i]) == Ok(chain[1..][i + 1])
        {
          assert Step(store, chain[i + 1], tokens[i + 1]) == Ok(chain[i + 2]);
        }
      }
      WalkComplete(store, chain[1..], tokens[1..]);
    }
  }

  /**
   * A failed walk failed at a definite token: every token before it was found,
   * and the step for it reported exactly the walk's error.
   */
  lemma {:induction false} WalkFailsAt(store: Store, current: Listing, tokens: seq<string>)
    requires Walk(store, current, tokens).Err?
    ensures exists i :: (0 <= i < |tokens| && Walk(store, current, tokens[..i]).Ok?
      && Step(store, Walk(store, current, tokens[..i]).value, tokens[i]) == Walk(store, current, tokens))
  {
    var i := 0;
    var mid := current;
    while Step(store, mid, tokens[i]).Ok?
      invariant 0 <= i < |tokens|
      invariant Walk(store, current, tokens[..i]) == Ok(mid)
      invariant Walk(store, current, tokens) == Walk(store, mid, tokens[i..])
      decreases |tokens| - i
    {
      assert tokens[i..][1..] == tokens[i + 1..];
      WalkAppend(store, current, tokens[..i], [tokens[i]]);
      assert tokens[..i] + [tokens[i]] == tokens[..i + 1];
      mid := Step(store, mid, tokens[i]).value;
      i := i + 1;
    }
  }

  /** The number of bytes a reader over the file reports (`reader.size()`). */
  function Size(content: seq<byte>): nat
  {
    |content|
  }

  /** `reader.read(offset, len)`: the bytes `[offset, offset + len)`, if the file has them. */
  function ReadRange(content: seq<byte>, offset: nat, len: nat): (r: Option<seq<byte>>)
    ensures r.Some? <==> offset + len <= |content|
    ensures r.Some? ==> |r.value| == len
    ensures r.Some? ==> forall i :: 0 <= i < len ==> r.value[i] == content[offset + i]
  {
    if offset + len <= |content| then Some(content[offset..offset + len]) else None
  }

  /** The home directory the name service records for a service of a site. */
  function ServiceHome(store: Store, longName: string, service: string): (r: Result<DirKey, FetchError>)
    ensures r.Ok? <==> (longName, service) in store.serviceHomes
    ensures r.Ok? ==> r.value == store.serviceHomes[(longName, service)]
    ensures r.Err? ==> r.error == ServiceNotFound(longName, service)
  {
    if (longName, service) in store.serviceHomes then Ok(store.serviceHomes[(longName, service)])
    else Err(ServiceNotFound(longName, service))
  }

  /** The bytes `fetch_file` returns, or the step at which it would have panicked. */
  function Fetch(store: Store, longName: string, service: string, path: seq<string>, fileName: string)
    : Result<seq<byte>, FetchError>
  {
    match ServiceHome(store, longName, service)
    case Err(e) => Err(e)
    case Ok(home) =>
      match WalkFrom(store, Some(home), path)
      case Err(e) => Err(DirectoryError(e))
      case Ok(dir) =>
        match FindByName(dir.files, fileName)
        case None => Err(FileNotFound(fileName))
        case Some(i) =>
          var content := dir.files[i].item;
          match ReadRange(content, 0, Size(content))
          case None => Err(ReadFailed)
          case Some(bytes) => Ok(bytes)
  }

  /** `fetch_file`: name-service lookup, directory walk, file lookup, full-range read. */
  method FetchFile(store: Store, longName: string, service: string, path: seq<string>, fileName: string)
    returns (r: Result<seq<byte>, FetchError>)
    ensures r == Fetch(store, longName, service, path, fileName)
  {
    var home := ServiceHome(store, longName, service);
    if home.Err? {
      return Err(home.error);
    }
    var dir := GetFinalSubdirectory(store, path, Some(home.value));
    if dir.Err? {
      return Err(DirectoryError(dir.error));
    }
    var found := FindByName(dir.value.files, fileName);
    if found.None? {
      return Err(FileNotFound(fileName));
    }
    var content := dir.value.files[found.value].item;
    var size := Size(content);
    var bytes := ReadRange(content, 0, size);
    if bytes.None? {
      return Err(ReadFailed);
    }
    return Ok(bytes.value);
  }

  /**
   * A fetch succeeds exactly when the service has a home, the walk from it
   * reaches a directory, and that directory has a file of the name; the
   * bytes are then the whole content of the first such file, `size` of them.
   */
  lemma FetchWholeFile(store: Store, longName: string, service: string, path: seq<string>,
                       fileName: string, bytes: seq<byte>)
    ensures Fetch(store, longName, service, path, fileName) == Ok(bytes) <==>
      && (longName, service) in store.serviceHomes
      && var home := store.serviceHomes[(longName, service)];
      && WalkFrom(store, Some(home), path).Ok?
      && var dir := WalkFrom(store, Some(home), path).value;
      && FindByName(dir.files, fileName).Some?
      && bytes == dir.files[FindByName(dir.files, fileName).value].item
    ensures Fetch(store, longName, service, path, fileName) == Ok(bytes) ==>
      var dir := WalkFrom(store, Some(store.serviceHomes[(longName, service)]), path).value;
      exists i :: (0 <= i < |dir.files| && dir.files[i].name == fileName
        && (forall j :: 0 <= j < i ==> dir.files[j].name != fileName)
        && ReadRange(dir.files[i].item, 0, Size(dir.files[i].item)) == Some(bytes))
  {
    if (longName, service) in store.serviceHomes {
      var home := store.serviceHomes[(longName, service)];
      if WalkFrom(store, Some(home), path).Ok? {
        var dir := WalkFrom(store, Some(home), path).value;
        if FindByName(dir.files, fileName).Some? {
          var content := dir.files[FindByName(dir.files, fileName).value].item;
          assert content[0..|content|] == content;
        }
      }
    }
  }

  /** The tree root -> a -> b -> c, with one file in b. */
  function ExampleStore(): Store
  {
    Store(
      map[DirKey(0) := Listing([Named("a", DirKey(1))], []),
          DirKey(1) := Listing([Named("b", DirKey(2))], []),
          DirKey(2) := Listing([Named("c", DirKey(3))], [Named("readme.md", [104, 105])]),
          DirKey(3) := Listing([], [])],
      DirKey(0),
      map[("nobackend-example", "invoice-app") := DirKey(0)])
  }

  /** Walking a/b lands in b; walking a/x stops at the missing x. */
  lemma ExampleWalks()
    ensures WalkFrom(ExampleStore(), None, ["a", "b"]) == Ok(ExampleStore().listings[DirKey(2)])
    ensures WalkFrom(ExampleStore(), None, ["a", "x"]) == Err(NoSuchSubdirectory("x"))
    ensures WalkFrom(ExampleStore(), None, []) == Ok(ExampleStore().listings[DirKey(0)])
  {
    var s := ExampleStore();
    assert ["a", "b"][1..] == ["b"];
    assert ["a", "x"][1..] == ["x"];
    assert Step(s, s.listings[DirKey(0)], "a") == Ok(s.listings[DirKey(1)]);
    assert Step(s, s.listings[DirKey(1)], "b") == Ok(s.listings[DirKey(2)]);
    assert Step(s, s.listings[DirKey(1)], "x") == Err(NoSuchSubdirectory("x"));
  }
}
