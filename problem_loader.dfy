/**
 * Fixture addressing: the zero-padded folder key of a problem, the lookup of
 * one of its files in the local store and then the remote bucket, and the
 * allocation of the next problem id from both stores.
 *
 * Both stores are finite maps from a path relative to the store root
 * (`problems/<folder>/<filename>`) to the file's text.
 */
module ProblemLoader {
  import opened Common
  import opened Text
  import opened Json

  /** `str(i)` for any Python int. */
  function IntToString(i: int): string {
    if i < 0 then "-" + Decimal(-i) else Decimal(i)
  }

  /** `str(problem_id).zfill(3)`: zeros are inserted after a leading sign
      until the string has at least three characters. */
  function FolderKey(id: int): string {
    var sign := if id < 0 then "-" else "";
    var digits := Decimal(if id < 0 then -id else id);
    var pad := 3 - |sign| - |digits|;
    sign + Zeros(if pad > 0 then pad else 0) + digits
  }

  /** The folder key of a problem id is a digit string of at least three
      characters that `int()` reads back as the id, so distinct ids never
      share a folder. */
  lemma FolderKeyRoundTrip(id: nat)
    ensures |FolderKey(id)| >= 3 && IsDigits(FolderKey(id))
    ensures ParseDigits(FolderKey(id)) == id
  {
    var digits := Decimal(id);
    var pad := 3 - |digits|;
    var z := if pad > 0 then pad else 0;
    assert FolderKey(id) == Zeros(z) + digits;
    ParseLeadingZeros(z, digits);
    ParseDecimal(id);
  }

  lemma FolderKeyInjective(a: nat, b: nat)
    requires FolderKey(a) == FolderKey(b)
    ensures a == b
  {
    FolderKeyRoundTrip(a);
    FolderKeyRoundTrip(b);
  }

  lemma {:induction false} DecimalLength(n: nat)
    ensures n >= 10 ==> |Decimal(n)| >= 2
    ensures n >= 100 ==> |Decimal(n)| >= 3
  {
    if n >= 10 {
      DecimalLength(n / 10);
    }
  }

  /** Ids of three or more digits are used as they are; smaller ids get
      leading zeros up to width three. */
  lemma FolderKeyPadding(id: nat)
    ensures id >= 100 ==> FolderKey(id) == Decimal(id)
    ensures 10 <= id < 100 ==> FolderKey(id) == "0" + Decimal(id)
    ensures id < 10 ==> FolderKey(id) == "00" + Decimal(id)
  {
    DecimalLength(id);
    if id >= 100 {
      assert Zeros(0) + Decimal(id) == Decimal(id);
    } else if id >= 10 {
      assert |Decimal(id)| == 2 by {
        assert id / 10 < 10;
      }
      assert Zeros(1) == "0";
    } else {
      assert Zeros(2) == "00";
    }
  }

  /** Path of a problem file inside either store. */
  function FixturePath(id: int, filename: string): string {
    "problems/" + FolderKey(id) + "/" + filename
  }

  datatype Stores = Stores(local: map<string, string>, remote: map<string, string>)

  datatype Content = Text(text: string) | Parsed(value: Json)

  datatype LoadError = FileNotFound(message: string) | BadJson(message: string)

  datatype Loaded = Loaded(content: Content) | Failed(error: LoadError)

  function NotFoundMessage(filename: string, id: int): string {
    filename + " not found in local or GCS for problem " + IntToString(id)
  }

  /** `load_problem_file`: the local file if it exists, otherwise the remote
      blob, otherwise `FileNotFoundError`; with `parseJson` the text is
      decoded as JSON, otherwise returned unchanged. */
  function LoadProblemFile(stores: Stores, id: int, filename: string, parseJson: bool,
                           decode: string -> Decoded): (r: Loaded)
    ensures r.Failed? && r.error.FileNotFound? <==>
              FixturePath(id, filename) !in stores.local && FixturePath(id, filename) !in stores.remote
    ensures r.Failed? && r.error.FileNotFound? ==> r.error.message == NotFoundMessage(filename, id)
    ensures !parseJson ==> r.Loaded? || r.error.FileNotFound?
    ensures !parseJson && r.Loaded? ==> r.content.Text?
    ensures parseJson && r.Loaded? ==> r.content.Parsed?
    ensures !parseJson && FixturePath(id, filename) in stores.local ==>
              r == Loaded(Text(stores.local[FixturePath(id, filename)]))
    ensures !parseJson && FixturePath(id, filename) !in stores.local && FixturePath(id, filename) in stores.remote ==>
              r == Loaded(Text(stores.remote[FixturePath(id, filename)]))
  {
    var path := FixturePath(id, filename);
    var found :=
      if path in stores.local then Some(stores.local[path])
      else if path in stores.remote then Some(stores.remote[path])
      else None;
    match found
    case None => Failed(FileNotFound(NotFoundMessage(filename, id)))
    case Some(text) =>
      if !parseJson then Loaded(Text(text))
      else match decode(text)
        case Decoded(v) => Loaded(Parsed(v))
        case Malformed(m) => Failed(BadJson(m))
  }

  /** The remote store is consulted only when the local file is missing:
      with the file present locally, the remote contents never matter. */
  lemma LocalFirst(local: map<string, string>, remote1: map<string, string>, remote2: map<string, string>,
                   id: int, filename: string, parseJson: bool, decode: string -> Decoded)
    requires FixturePath(id, filename) in local
    ensures LoadProblemFile(Stores(local, remote1), id, filename, parseJson, decode)
         == LoadProblemFile(Stores(local, remote2), id, filename, parseJson, decode)
    ensures LoadProblemFile(Stores(local, remote1), id, filename, false, decode)
         == Loaded(Text(local[FixturePath(id, filename)]))
  {
  }

  /** Without a local file the remote store decides: the blob's text when
      the bucket has it, `FileNotFoundError` otherwise, and the local store
      plays no further part. */
  lemma RemoteFallback(stores: Stores, id: int, filename: string, parseJson: bool, decode: string -> Decoded)
    requires FixturePath(id, filename) !in stores.local
    ensures FixturePath(id, filename) in stores.remote ==>
              LoadProblemFile(stores, id, filename, false, decode) == Loaded(Text(stores.remote[FixturePath(id, filename)]))
    ensures FixturePath(id, filename) !in stores.remote ==>
              LoadProblemFile(stores, id, filename, parseJson, decode) == Failed(FileNotFound(NotFoundMessage(filename, id)))
    ensures LoadProblemFile(stores, id, filename, parseJson, decode)
         == LoadProblemFile(Stores(map[], stores.remote), id, filename, parseJson, decode)
  {
  }

  /** The text the lookup finds: the local file, else the remote blob. */
  predicate FoundText(stores: Stores, path: string, text: string) {
    || (path in stores.local && stores.local[path] == text)
    || (path !in stores.local && path in stores.remote && stores.remote[path] == text)
  }

  /** Whichever store holds the file, the text comes back unchanged without
      `parseJson`, and with it the result is the decoder's verdict on that
      text. */
  lemma ParsedIsDecoded(stores: Stores, id: int, filename: string, decode: string -> Decoded, text: string)
    requires FoundText(stores, FixturePath(id, filename), text)
    ensures LoadProblemFile(stores, id, filename, false, decode) == Loaded(Text(text))
    ensures decode(text).Decoded? ==>
              LoadProblemFile(stores, id, filename, true, decode) == Loaded(Parsed(decode(text).value))
    ensures decode(text).Malformed? ==>
              LoadProblemFile(stores, id, filename, true, decode) == Failed(BadJson(decode(text).message))
  {
  }

  // ---------------------------------------------------------------
  // get_next_problem_id
  // ---------------------------------------------------------------

  /** One entry of `os.listdir(<BASE_DIR>/problems)`. */
  datatype DirEntry = DirEntry(name: string, isDir: bool)

  /** Ids named by all-digit local directories. */
  function LocalIds(root: Option<seq<DirEntry>>): set<nat> {
    if root.None? then {}
    else set e | e in root.value && IsDigits(e.name) && e.isDir :: ParseDigits(e.name)
  }

  /** The id a remote blob name carries in its second `/`-separated segment. */
  function RemoteId(name: string): Option<nat> {
    var parts := Split(name, '/');
    if |parts| > 1 && IsDigits(parts[1]) then Some(ParseDigits(parts[1])) else None
  }

  /** Blob names that `list_blobs(prefix="problems/")` yields. */
  function Listed(remote: map<string, string>): set<string> {
    set name | name in remote && StartsWith(name, "problems/")
  }

  function IdsOf(names: set<string>): set<nat> {
    set name | name in names && RemoteId(name).Some? :: RemoteId(name).value
  }

  function RemoteIds(remote: map<string, string>): set<nat> {
    IdsOf(Listed(remote))
  }

  lemma {:induction false} MaxExists(s: set<nat>)
    requires s != {}
    ensures exists m :: m in s && forall x :: x in s ==> x <= m
    decreases |s|
  {
    var y :| y in s;
    if s == {y} {
      assert forall x :: x in s ==> x <= y;
    } else {
      MaxExists(s - {y});
      var m :| m in s - {y} && forall x :: x in s - {y} ==> x <= m;
      var w := if m < y then y else m;
      forall x | x in s ensures x <= w {
        if x != y {
          assert x in s - {y};
        }
      }
      assert w in s;
    }
  }

  /** One step of the listing loop: moving `name` from the pending names to
      the visited ones adds its id, if it carries one. */
  lemma IdsOfAdd(pending: set<string>, done: set<string>, name: string)
    requires name in pending && pending !! done
    ensures (pending - {name}) + (done + {name}) == pending + done
    ensures (pending - {name}) !! (done + {name})
    ensures IdsOf(done + {name}) ==
            IdsOf(done) + (if RemoteId(name).Some? then {RemoteId(name).value} else {})
  {
  }

  /** `max(s, default=0)`. */
  function MaxOf(s: set<nat>): (m: nat)
    ensures s == {} ==> m == 0
    ensures s != {} ==> m in s
    ensures forall x :: x in s ==> x <= m
  {
    if s == {} then 0
    else
      MaxExists(s);
      var m :| m in s && forall x :: x in s ==> x <= m;
      m
  }

  /** The loop of `get_next_problem_id` over the bucket listing: the set of
      ids carried by the listed blob names. */
  method CollectRemoteIds(remote: map<string, string>) returns (gcsIds: set<nat>)
    ensures gcsIds == RemoteIds(remote)
  {
    gcsIds := {};
    var pending := Listed(remote);
    ghost var done: set<string> := {};
    while pending != {}
      invariant pending + done == Listed(remote) && pending !! done
      invariant gcsIds == IdsOf(done)
      decreases pending
    {
      var name :| name in pending;
      var id := RemoteId(name);
      IdsOfAdd(pending, done, name);
      if id.Some? {
        gcsIds := gcsIds + {id.value};
      }
      pending := pending - {name};
      done := done + {name};
    }
  }

  /** `get_next_problem_id`: one more than the largest id found locally or in
      the bucket, and 1 when neither holds any. */
  method GetNextProblemId(localRoot: Option<seq<DirEntry>>, remote: map<string, string>)
    returns (next: nat)
    ensures next >= 1
    ensures forall id :: id in LocalIds(localRoot) ==> id < next
    ensures forall name :: name in Listed(remote) && RemoteId(name).Some? ==> RemoteId(name).value < next
    ensures next == 1 || next - 1 in LocalIds(localRoot) + RemoteIds(remote)
  {
    var localIds := LocalIds(localRoot);
    var localMax := MaxOf(localIds);
    var gcsIds := CollectRemoteIds(remote);
    var gcsMax := MaxOf(gcsIds);
    next := (if localMax >= gcsMax then localMax else gcsMax) + 1;
    NextIdBounds(localIds, gcsIds, next);
    assert forall name :: name in Listed(remote) && RemoteId(name).Some? ==> RemoteId(name).value in gcsIds;
  }

  lemma NextIdBounds(a: set<nat>, b: set<nat>, next: nat)
    requires next == (if MaxOf(a) >= MaxOf(b) then MaxOf(a) else MaxOf(b)) + 1
    ensures forall x :: x in a + b ==> x < next
    ensures next == 1 || next - 1 in a + b
  {
  }
}
