/**
 * The sync server: the `./tmp` directory as a map from file name to entry,
 * the most-recent-file selection, and the GET and POST `/sync` handlers.
 */
module SyncServer {
  import opened Wrappers
  import opened JsNumber

  /** A directory entry as `lstatSync` sees it: a regular file with its contents, or a subdirectory. */
  datatype Node = File(data: string, mtime: int) | Subdir(mtime: int)

  type Directory = map<string, Node>

  /** `{file, mtime}` as built by `orderRecentFiles`. */
  datatype Stamped = Stamped(file: string, mtime: int)

  /** `listing` is what `readdirSync` returned for `dir`: every entry's name, in the order the file system gave. */
  predicate ListsExactly(listing: seq<string>, dir: Directory)
  {
    && (forall name :: name in listing ==> name in dir)
    && (forall name :: name in dir ==> name in listing)
  }

  /** The `filter(isFile)` and `map` steps, in listing order. */
  function RegularFiles(dir: Directory, listing: seq<string>): (r: seq<Stamped>)
    requires forall name :: name in listing ==> name in dir
    ensures forall e :: e in r <==> e.file in listing && dir[e.file].File? && dir[e.file].mtime == e.mtime
    decreases |listing|
  {
    if listing == [] then []
    else
      var name := listing[0];
      var rest := RegularFiles(dir, listing[1..]);
      assert forall n :: n in listing <==> n == name || n in listing[1..];
      if dir[name].File? then [Stamped(name, dir[name].mtime)] + rest else rest
  }

  /** Newest first. */
  predicate ByRecency(r: seq<Stamped>)
  {
    forall i, j :: 0 <= i < j < |r| ==> r[i].mtime >= r[j].mtime
  }

  /** Puts `e` before the first element that is not strictly newer, so equal times keep their order. */
  function InsertByRecency(e: Stamped, r: seq<Stamped>): (s: seq<Stamped>)
    requires ByRecency(r)
    ensures ByRecency(s)
    ensures multiset(s) == multiset(r) + multiset{e}
    ensures forall x :: x in s <==> x in r || x == e
    ensures |s| == |r| + 1 && (s[0] == e || (r != [] && s[0] == r[0]))
    decreases |r|
  {
    if r == [] || r[0].mtime <= e.mtime then [e] + r
    else
      var rest := InsertByRecency(e, r[1..]);
      assert r == [r[0]] + r[1..];
      assert r[0].mtime >= rest[0].mtime by {
        if |r| > 1 { assert r[0].mtime >= r[1].mtime; }
      }
      var s := [r[0]] + rest;
      assert forall j :: 0 < j < |s| ==> s[j] == rest[j - 1];
      s
  }

  /** The `sort((a, b) => b.mtime - a.mtime)` step: a stable sort, newest first. */
  function SortByRecency(xs: seq<Stamped>): (r: seq<Stamped>)
    ensures ByRecency(r)
    ensures multiset(r) == multiset(xs)
    ensures forall x :: x in r <==> x in xs
    decreases |xs|
  {
    if xs == [] then []
    else
      assert xs == [xs[0]] + xs[1..];
      InsertByRecency(xs[0], SortByRecency(xs[1..]))
  }

  /** `orderRecentFiles(dir)`: the regular files of `dir`, newest first. */
  function OrderRecentFiles(dir: Directory, listing: seq<string>): (r: seq<Stamped>)
    requires ListsExactly(listing, dir)
    ensures ByRecency(r)
    ensures forall e :: e in r <==> e.file in dir && dir[e.file].File? && dir[e.file].mtime == e.mtime
  {
    SortByRecency(RegularFiles(dir, listing))
  }

  lemma HeadIsNewest(r: seq<Stamped>)
    requires ByRecency(r) && r != []
    ensures forall e :: e in r ==> e.mtime <= r[0].mtime
  {
  }

  /**
   * `getMostRecentFile(dir)`: a regular file whose mtime no other regular file
   * exceeds; None (`undefined`) when the directory holds no regular file.
   */
  function MostRecentFile(dir: Directory, listing: seq<string>): (r: Option<Stamped>)
    requires ListsExactly(listing, dir)
    ensures r.None? <==> forall name :: name in dir ==> !dir[name].File?
    ensures r.Some? ==> r.value.file in dir && dir[r.value.file].File? && dir[r.value.file].mtime == r.value.mtime
    ensures r.Some? ==> forall name :: name in dir && dir[name].File? ==> dir[name].mtime <= r.value.mtime
  {
    var files := OrderRecentFiles(dir, listing);
    if |files| > 0 then
      HeadIsNewest(files);
      assert forall name :: name in dir && dir[name].File? ==> Stamped(name, dir[name].mtime) in files;
      Some(files[0])
    else
      assert forall name :: name in dir && dir[name].File? ==> Stamped(name, dir[name].mtime) in files;
      None
  }

  datatype ServerError =
    | BadUpdatedAt    // 'please set updatedAt param to valid timestamp'
    | NoRecentFile    // `dataPath.file` on `undefined`
    | MissingBody     // 'body must contain {data, updatedAt}'
    | WriteFailed     // `writeFile` onto a name held by a subdirectory

  /** A GET reply: the JSON body `{data, isNewer}`, or the exception the handler throws. */
  datatype Reply = Reply(data: string, isNewer: bool) | Thrown(error: ServerError)

  /** What GET does once the query has passed its guard. */
  function Respond(tmp: Option<Directory>, updatedAt: string, listing: seq<string>): (r: Reply)
    requires tmp.Some? ==> ListsExactly(listing, tmp.value)
    ensures tmp.None? ==> r == Reply("", false)
    ensures r == Thrown(NoRecentFile) <==> tmp.Some? && forall name :: name in tmp.value ==> !tmp.value[name].File?
    ensures r.Reply? && !r.isNewer ==> r.data == ""
    ensures r.Reply? && r.isNewer ==>
      && tmp.Some? && MostRecentFile(tmp.value, listing).Some?
      && var f := MostRecentFile(tmp.value, listing).value;
         r.data == tmp.value[f.file].data && Greater(ParseInt(f.file), ToNumber(updatedAt))
    ensures r.Thrown? ==> r.error == NoRecentFile
    ensures tmp.Some? && MostRecentFile(tmp.value, listing).Some? ==>
      var f := MostRecentFile(tmp.value, listing).value;
      r == if Greater(ParseInt(f.file), ToNumber(updatedAt)) then Reply(tmp.value[f.file].data, true) else Reply("", false)
  {
    match tmp
    case None => Reply("", false)
    case Some(dir) =>
      match MostRecentFile(dir, listing)
      case None => Thrown(NoRecentFile)
      case Some(f) =>
        var isNewer := Greater(ParseInt(f.file), ToNumber(updatedAt));
        if isNewer then Reply(dir[f.file].data, true) else Reply("", false)
  }

  /**
   * GET `/sync?updatedAt=…` as written: the guard
   * `updatedAt == null || parseInt(updatedAt) == NaN` rejects only a missing
   * parameter, because NaN equals nothing.
   */
  function Get(tmp: Option<Directory>, updatedAt: Option<string>, listing: seq<string>): (r: Reply)
    requires tmp.Some? ==> ListsExactly(listing, tmp.value)
    ensures r == Thrown(BadUpdatedAt) <==> updatedAt.None?
    ensures updatedAt.Some? ==> r == Respond(tmp, updatedAt.value, listing)
  {
    if updatedAt.None? || LooseEquals(ParseInt(updatedAt.value), NaN) then Thrown(BadUpdatedAt)
    else Respond(tmp, updatedAt.value, listing)
  }

  /** The guard as evidently intended, `isNaN(parseInt(updatedAt))`: a non-numeric parameter is refused. */
  function GetChecked(tmp: Option<Directory>, updatedAt: Option<string>, listing: seq<string>): (r: Reply)
    requires tmp.Some? ==> ListsExactly(listing, tmp.value)
    ensures r == Thrown(BadUpdatedAt) <==> updatedAt.None? || ParseInt(updatedAt.value).NaN?
    ensures r.Reply? ==> updatedAt.Some? && ParseInt(updatedAt.value).Int?
  {
    if updatedAt.None? || ParseInt(updatedAt.value).NaN? then Thrown(BadUpdatedAt)
    else Respond(tmp, updatedAt.value, listing)
  }

  /** The guard as written lets a non-numeric `updatedAt` through: `abc` is answered, not refused. */
  lemma NaNGuardAdmitsNonNumeric()
    ensures ParseInt("abc") == NaN
    ensures Get(None, Some("abc"), []) == Reply("", false)
    ensures GetChecked(None, Some("abc"), []) == Thrown(BadUpdatedAt)
  {
  }

  /** On a numeric `updatedAt` the two guards agree. */
  lemma GetCheckedAgrees(tmp: Option<Directory>, updatedAt: string, listing: seq<string>)
    requires tmp.Some? ==> ListsExactly(listing, tmp.value)
    requires ParseInt(updatedAt).Int?
    ensures GetChecked(tmp, Some(updatedAt), listing) == Get(tmp, Some(updatedAt), listing)
  {
  }

  /** The POST body `{data, updatedAt}`; either field may be missing. */
  datatype PostBody = PostBody(data: Option<string>, updatedAt: Option<int>)

  datatype PostReply = Success | PostThrown(error: ServerError)

  /** The directory after `data` is written to the file named `${version}` at time `now`. */
  function Stored(tmp: Option<Directory>, version: int, data: string, now: int): (dir: Directory)
  {
    tmp.GetOr(map[])[Show(version) := File(data, now)]
  }

  /**
   * After a POST of `(data, version)` whose write is strictly newer than every
   * other regular file, GET hands out `data` exactly to callers whose
   * `updatedAt` is below `version`, and nothing to the others.
   */
  lemma {:induction false} PostThenGet(tmp: Option<Directory>, version: int, data: string, now: int,
                                       updatedAt: int, listing: seq<string>)
    requires forall name :: tmp.Some? && name in tmp.value && tmp.value[name].File? && name != Show(version)
               ==> tmp.value[name].mtime < now
    requires ListsExactly(listing, Stored(tmp, version, data, now))
    ensures Get(Some(Stored(tmp, version, data, now)), Some(Show(updatedAt)), listing) ==
      if version > updatedAt then Reply(data, true) else Reply("", false)
  {
    var dir := Stored(tmp, version, data, now);
    var f := MostRecentFile(dir, listing);
    assert dir[Show(version)].File?;
    assert f.Some?;
    assert f.value.file == Show(version);
    VersionOrder(version, updatedAt);
  }

  /** When no data was ever pushed the reply is empty and not newer; an emptied directory is an error. */
  lemma GetWithoutData(updatedAt: string)
    ensures Get(None, Some(updatedAt), []) == Reply("", false)
    ensures Get(Some(map[]), Some(updatedAt), []) == Thrown(NoRecentFile)
  {
  }

  /** The server's `./tmp` directory, absent until the first POST. */
  class SyncServer {
    var tmp: Option<Directory>

    constructor ()
      ensures tmp == None
    {
      tmp := None;
    }

    /**
     * POST `/sync`: with both `data` and `updatedAt` present, creates the directory
     * if needed and writes `data` to the file named `${updatedAt}`, replacing any
     * file of that name; a name taken by a subdirectory makes the write fail after
     * the directory exists. Otherwise throws and writes nothing.
     */
    method Post(body: Option<PostBody>, now: int) returns (r: PostReply)
      modifies this
      ensures body.None? || body.value.data.None? || body.value.updatedAt.None? ==>
        r == PostThrown(MissingBody) && tmp == old(tmp)
      ensures body.Some? && body.value.data.Some? && body.value.updatedAt.Some? ==>
        var name := Show(body.value.updatedAt.value);
        var dir := old(tmp).GetOr(map[]);
        if name in dir && dir[name].Subdir? then
          r == PostThrown(WriteFailed) && tmp == Some(dir)
        else
          r == Success && tmp == Some(Stored(old(tmp), body.value.updatedAt.value, body.value.data.value, now))
    {
      if body.None? || body.value.data.None? || body.value.updatedAt.None? {
        return PostThrown(MissingBody);
      }
      if tmp.None? {
        tmp := Some(map[]);
      }
      var name := Show(body.value.updatedAt.value);
      if name in tmp.value && tmp.value[name].Subdir? {
        return PostThrown(WriteFailed);
      }
      tmp := Some(tmp.value[name := File(body.value.data.value, now)]);
      r := Success;
    }
  }
}
