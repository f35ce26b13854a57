/**
 * The starter's development server: which handler a request reaches,
 * static files resolved inside the site root with a content type chosen
 * by extension, and the two in-memory mock endpoints that stand in for a
 * node when it runs with `--local-dev`.
 */
module DevServer {
  import opened Options
  import opened JsValues
  import Attestation

  // ---------------------------------------------------------------------
  // Content types
  // ---------------------------------------------------------------------

  /** The position of the last `c` in `s`, if any. */
  function LastIndexOf(s: string, c: char): (r: Option<nat>)
    ensures r.Some? ==> r.value < |s| && s[r.value] == c && forall j :: r.value < j < |s| ==> s[j] != c
    ensures r.None? ==> forall j :: 0 <= j < |s| ==> s[j] != c
    decreases |s|
  {
    if s == [] then None
    else if s[|s| - 1] == c then Some(|s| - 1)
    else LastIndexOf(s[..|s| - 1], c)
  }

  /** The last path segment. */
  function BaseName(p: string): (r: string)
    ensures forall j :: 0 <= j < |r| ==> r[j] != '/'
  {
    match LastIndexOf(p, '/')
    case None => p
    case Some(k) => p[k + 1..]
  }

  /**
   * `path.extname`: the last segment from its last dot, or "" when it has
   * no dot, when that dot is its first character (`.bashrc`), or when the
   * segment is `..`.
   */
  function ExtName(p: string): (r: string)
    ensures r == [] || (r[0] == '.' && forall j :: 1 <= j < |r| ==> r[j] != '.' && r[j] != '/')
    ensures r != [] ==> exists k :: 0 <= k <= |p| - |r| && p[k..] == r
  {
    var b := BaseName(p);
    match LastIndexOf(b, '.')
    case None => []
    case Some(k) =>
      if k == 0 || b == ".." then []
      else
        assert p[|p| - |b|..] == b;
        assert p[|p| - |b| + k..] == b[k..];
        b[k..]
  }

  /** The extensions served with their own type, each with that type. */
  const CONTENT_TYPES: seq<(string, string)> := [
    (".html", "text/html; charset=utf-8"),
    (".js", "application/javascript; charset=utf-8"),
    (".css", "text/css; charset=utf-8"),
    (".json", "application/json; charset=utf-8"),
    (".png", "image/png"),
    (".jpg", "image/jpeg"),
    (".jpeg", "image/jpeg"),
    (".gif", "image/gif"),
    (".svg", "image/svg+xml; charset=utf-8"),
    (".txt", "text/plain; charset=utf-8"),
    (".ico", "image/x-icon")]

  const OCTET_STREAM: string := "application/octet-stream"

  /** The first entry of the table for extension `e`, or `|table|` when there is none. */
  function TypeIndex(e: string, table: seq<(string, string)>): (k: nat)
    ensures k <= |table| && (k < |table| ==> table[k].0 == e)
    ensures forall j :: 0 <= j < k ==> table[j].0 != e
    decreases |table|
  {
    if table == [] || table[0].0 == e then 0
    else
      assert forall j :: 0 < j < |table| ==> table[j] == table[1..][j - 1];
      1 + TypeIndex(e, table[1..])
  }

  /** `contentTypeFor`: the switch over the file's lower-cased extension. */
  function ContentTypeFor(filePath: string): (r: string)
    ensures var k := TypeIndex(Lower(ExtName(filePath)), CONTENT_TYPES);
      r == if k < |CONTENT_TYPES| then CONTENT_TYPES[k].1 else OCTET_STREAM
  {
    var k := TypeIndex(Lower(ExtName(filePath)), CONTENT_TYPES);
    if k < |CONTENT_TYPES| then CONTENT_TYPES[k].1 else OCTET_STREAM
  }

  /** No extension is listed twice. */
  lemma TypeKeysDistinct()
    ensures forall i, j :: 0 <= i < j < |CONTENT_TYPES| ==> CONTENT_TYPES[i].0 != CONTENT_TYPES[j].0
  {
    forall i, j | 0 <= i < j < |CONTENT_TYPES|
      ensures CONTENT_TYPES[i].0 != CONTENT_TYPES[j].0
    {
      var a, b := CONTENT_TYPES[i].0, CONTENT_TYPES[j].0;
      assert |a| != |b| || a[1] != b[1] || a[2] != b[2];
    }
  }

  /** The last `c` of `s + t`, when `t` has none, is the last `c` of `s`. */
  lemma {:induction false} LastIndexOfAppend(s: string, t: string, c: char)
    requires forall j :: 0 <= j < |t| ==> t[j] != c
    ensures LastIndexOf(s + t, c) == LastIndexOf(s, c)
    decreases |t|
  {
    if t != [] {
      assert (s + t)[..|s + t| - 1] == s + t[..|t| - 1];
      LastIndexOfAppend(s, t[..|t| - 1], c);
    } else {
      assert s + t == s;
    }
  }

  /** The last `c` of `s + [c] + t`, when `t` has none, is the one between them. */
  lemma LastIndexOfSplit(s: string, c: char, t: string)
    requires forall j :: 0 <= j < |t| ==> t[j] != c
    ensures LastIndexOf(s + [c] + t, c) == Some(|s|)
  {
    LastIndexOfAppend(s + [c], t, c);
    assert (s + [c])[|s + [c]| - 1] == c;
  }

  /** The last segment of `dir/name` is `name`. */
  lemma BaseNameSplit(dir: string, name: string)
    requires forall j :: 0 <= j < |name| ==> name[j] != '/'
    ensures BaseName(dir + "/" + name) == name
  {
    assert dir + "/" + name == dir + ['/'] + name;
    LastIndexOfSplit(dir, '/', name);
    assert (dir + ['/'] + name)[|dir| + 1..] == name;
  }

  /** The extension of `dir/name.ext` is `.ext`. */
  lemma ExtNameOfFile(dir: string, name: string, ext: string)
    requires ext != [] && ext[0] == '.'
    requires name != [] && forall j :: 0 <= j < |name| ==> name[j] != '/' && name[j] != '.'
    requires forall j :: 1 <= j < |ext| ==> ext[j] != '/' && ext[j] != '.'
    ensures ExtName(dir + "/" + name + ext) == ext
  {
    var b := name + ext;
    assert dir + "/" + name + ext == dir + "/" + b;
    BaseNameSplit(dir, b);
    assert b == name + ['.'] + ext[1..];
    LastIndexOfSplit(name, '.', ext[1..]);
    assert b[|name|..] == ext;
  }

  /**
   * A leading dot starts no extension, but dots before the last one do not
   * hide it: `..js` is JavaScript, `...` has the extension `.`.
   */
  lemma ExtNameOfDotNames()
    ensures ExtName("/.bashrc") == []
    ensures ExtName("/..") == []
    ensures ExtName("/..js") == ".js"
    ensures ExtName("/...") == "."
  {
    ExtNameOfHidden();
    ExtNameOfParent();
    ExtNameAfterDots();
    ExtNameOfThreeDots();
  }

  lemma ExtNameOfHidden()
    ensures ExtName("/.bashrc") == []
  {
    assert "/.bashrc" == [] + "/" + ".bashrc";
    BaseNameSplit([], ".bashrc");
    assert ".bashrc" == [] + ['.'] + "bashrc";
    LastIndexOfSplit([], '.', "bashrc");
  }

  lemma ExtNameOfParent()
    ensures ExtName("/..") == []
  {
    assert "/.." == [] + "/" + "..";
    BaseNameSplit([], "..");
  }

  lemma ExtNameAfterDots()
    ensures ExtName("/..js") == ".js"
  {
    assert "/..js" == [] + "/" + "..js";
    BaseNameSplit([], "..js");
    assert "..js" == "." + ['.'] + "js";
    LastIndexOfSplit(".", '.', "js");
    assert "..js"[1..] == ".js";
  }

  lemma ExtNameOfThreeDots()
    ensures ExtName("/...") == "."
  {
    assert "/..." == [] + "/" + "...";
    BaseNameSplit([], "...");
    assert "..." == ".." + ['.'] + [];
    LastIndexOfSplit("..", '.', []);
    assert "..."[2..] == ".";
  }

  /**
   * A file `name.ext` in any directory is served with the type listed for
   * `ext`, whatever the case of its letters (so `LOGO.PNG` is an image).
   */
  lemma ListedExtension(dir: string, name: string, ext: string, i: nat)
    requires i < |CONTENT_TYPES| && Lower(ext) == CONTENT_TYPES[i].0
    requires name != [] && forall j :: 0 <= j < |name| ==> name[j] != '/' && name[j] != '.'
    requires forall j :: 1 <= j < |ext| ==> ext[j] != '/' && ext[j] != '.'
    ensures ContentTypeFor(dir + "/" + name + ext) == CONTENT_TYPES[i].1
  {
    assert CONTENT_TYPES[i].0[0] == '.';
    assert ext != [] && ext[0] == '.';
    ExtNameOfFile(dir, name, ext);
    TypeKeysDistinct();
    var k := TypeIndex(Lower(ext), CONTENT_TYPES);
    assert k == i;
  }

  /** An extension that is not listed, or none, is served as a byte stream. */
  lemma UnlistedExtension(filePath: string)
    requires forall i :: 0 <= i < |CONTENT_TYPES| ==> Lower(ExtName(filePath)) != CONTENT_TYPES[i].0
    ensures ContentTypeFor(filePath) == OCTET_STREAM
  {
  }

  // ---------------------------------------------------------------------
  // Static files inside the root
  // ---------------------------------------------------------------------

  /** `s.replace(/^\/+/, "")` */
  function StripLeadingSlashes(s: string): (r: string)
    ensures r == [] || r[0] != '/'
    ensures exists k :: 0 <= k <= |s| && r == s[k..] && forall j :: 0 <= j < k ==> s[j] == '/'
    decreases |s|
  {
    if s != [] && s[0] == '/' then
      var r := StripLeadingSlashes(s[1..]);
      var k :| 0 <= k <= |s[1..]| && r == s[1..][k..] && forall j :: 0 <= j < k ==> s[1..][j] == '/';
      assert r == s[k + 1..];
      r
    else
      assert s == s[0..];
      s
  }

  /**
   * The services the path logic relies on: `decodeURIComponent` (None when
   * it throws), `path.normalize`, `path.resolve` of the root with a
   * relative path and of the root alone, and the platform's separator.
   */
  datatype PathOps = PathOps(decode: string -> Option<string>, normalize: string -> string,
                             resolveIn: (string, string) -> string, resolve: string -> string, sep: char)

  /** The absolute path a request names, before the containment check. */
  function Candidate(rootDir: string, pathname: string, ops: PathOps): string
  {
    var raw := StripLeadingSlashes(if pathname == [] then "/" else pathname);
    var decoded := match ops.decode(raw) case Some(d) => d case None => raw;
    ops.resolveIn(rootDir, ops.normalize(decoded))
  }

  /** The path lies in the root or is the root itself. */
  predicate Inside(abs: string, rootAbs: string, sep: char)
  {
    abs == rootAbs || (|rootAbs| < |abs| && abs[..|rootAbs| + 1] == rootAbs + [sep])
  }

  /** `safeResolveFromRoot`: the file a request names, or None when it escapes the root. */
  function SafeResolveFromRoot(rootDir: string, pathname: string, ops: PathOps): (r: Option<string>)
    ensures r.Some? ==> r.value == Candidate(rootDir, pathname, ops)
    ensures r.Some? <==> Inside(Candidate(rootDir, pathname, ops), ops.resolve(rootDir), ops.sep)
  {
    var abs := Candidate(rootDir, pathname, ops);
    var rootAbs := ops.resolve(rootDir);
    if !(|rootAbs| < |abs| && abs[..|rootAbs| + 1] == rootAbs + [ops.sep]) && abs != rootAbs then None
    else Some(abs)
  }

  /** Whatever the request, a resolved file is the root or sits below it. */
  lemma Contained(rootDir: string, pathname: string, ops: PathOps)
    requires SafeResolveFromRoot(rootDir, pathname, ops).Some?
    ensures var p := SafeResolveFromRoot(rootDir, pathname, ops).value; var root := ops.resolve(rootDir);
      p == root || (|p| > |root| && p[..|root|] == root && p[|root|] == ops.sep)
  {
    var p := SafeResolveFromRoot(rootDir, pathname, ops).value;
    var root := ops.resolve(rootDir);
    if p != root {
      assert p[..|root| + 1][..|root|] == p[..|root|];
    }
  }

  /** A sibling whose name continues the root's (`/srv/site-old` next to `/srv/site`) is refused. */
  lemma SiblingRefused(rootDir: string, pathname: string, ops: PathOps, suffix: string)
    requires suffix != [] && suffix[0] != ops.sep
    requires Candidate(rootDir, pathname, ops) == ops.resolve(rootDir) + suffix
    ensures SafeResolveFromRoot(rootDir, pathname, ops).None?
  {
    var root := ops.resolve(rootDir);
    var abs := root + suffix;
    assert abs[..|root| + 1][|root|] == suffix[0];
    assert (root + [ops.sep])[|root|] == ops.sep;
  }

  /** What the static route serves: the index page, a file below the root, or a bad request. */
  datatype StaticTarget = IndexPage | FileAt(path: string) | BadRequest

  function StaticTargetOf(rootDir: string, pathname: string, ops: PathOps): (t: StaticTarget)
    ensures (pathname == "/" || pathname == []) <==> t == IndexPage
    ensures t.FileAt? ==> Inside(t.path, ops.resolve(rootDir), ops.sep)
  {
    if pathname == "/" || pathname == [] then IndexPage
    else match SafeResolveFromRoot(rootDir, pathname, ops)
      case None => BadRequest
      case Some(p) => FileAt(p)
  }

  // ---------------------------------------------------------------------
  // Requests
  // ---------------------------------------------------------------------

  /** The handler a request reaches. */
  datatype Handler = MethodNotAllowed | BridgeScript | MockSend | MockList | NotFound | StaticFile

  const MOCK_SEND_PATH: string := "/__mock/sendTransaction"
  const MOCK_LIST_PATH: string := "/__mock/getTransactions"

  function Dispatch(verb: string, pathname: string, mockEnabled: bool): (h: Handler)
    ensures verb != "GET" && verb != "HEAD" && verb != "POST" ==> h == MethodNotAllowed
    ensures (h == MockSend || h == MockList) ==> mockEnabled && verb == "POST"
    ensures h == StaticFile ==> verb == "GET" || verb == "HEAD"
  {
    if verb != "GET" && verb != "HEAD" && verb != "POST" then MethodNotAllowed
    else if pathname == "/usernode-bridge.js" then BridgeScript
    else if pathname == MOCK_SEND_PATH || pathname == MOCK_LIST_PATH then
      if !mockEnabled then NotFound
      else if verb != "POST" then MethodNotAllowed
      else if pathname == MOCK_SEND_PATH then MockSend
      else MockList
    else if verb != "GET" && verb != "HEAD" then MethodNotAllowed
    else StaticFile
  }

  const BODY_LIMIT: nat := 1_000_000

  /** `readJson`: `{}` for an empty body, the parse of a body within the size limit, else the error. */
  function ReadJson(data: string, parse: string -> Result<Json>): (r: Result<Json>)
    ensures |data| > BODY_LIMIT ==> r == Err("Body too large")
    ensures data == [] ==> r == Ok(Obj([]))
  {
    if |data| > BODY_LIMIT then Err("Body too large")
    else if data == [] then Ok(Obj([]))
    else parse(data)
  }

  /** An answer of a mock endpoint: its status and JSON body. */
  datatype Reply = Reply(status: int, body: Json)

  /** `String(x || "").trim()` */
  function TextField(body: Json, key: string): string
  {
    Trim(ToStr(Or(Get(body, key), Str(""))))
  }

  const MISSING_PARTIES: string := "from_pubkey and destination_pubkey required"

  /** Reading a property of `null` or `undefined` throws; the handler reports it as bad JSON. */
  function NullBodyMessage(body: Json): string
  {
    "Cannot read properties of " + ToStr(body) + " (reading 'from_pubkey')"
  }

  /** The transaction the send endpoint queues. */
  function QueuedTx(id: string, from: string, to: string, amount: Json, memo: Json, createdAt: string): (tx: Json)
    ensures Get(tx, "id") == Str(id) && Get(tx, "from_pubkey") == Str(from) && Get(tx, "destination_pubkey") == Str(to)
    ensures Get(tx, "amount") == amount && Get(tx, "memo") == memo && Get(tx, "created_at") == Str(createdAt)
  {
    var fields := [("id", Str(id)), ("from_pubkey", Str(from)), ("destination_pubkey", Str(to)),
                   ("amount", amount), ("memo", memo), ("created_at", Str(createdAt))];
    assert Attestation.DistinctNames(fields);
    Attestation.LookupDistinct(fields, 0);
    Attestation.LookupDistinct(fields, 1);
    Attestation.LookupDistinct(fields, 2);
    Attestation.LookupDistinct(fields, 3);
    Attestation.LookupDistinct(fields, 4);
    Attestation.LookupDistinct(fields, 5);
    Obj(fields)
  }

  /** A body from which properties can be read: not `null`. */
  predicate Readable(body: Json)
  {
    !body.Null? && !body.Undefined?
  }

  /** Both parties of a send, each a non-blank text. */
  predicate HasParties(b: Json)
  {
    TextField(b, "from_pubkey") != [] && TextField(b, "destination_pubkey") != []
  }

  /**
   * `/__mock/sendTransaction`: both parties are required; the transaction
   * gets a fresh `id` and the clock's `created_at`, and is queued.
   */
  function MockSendReply(body: Result<Json>, id: string, createdAt: string): (r: (Reply, Option<Json>))
    ensures r.1.Some? <==> r.0.status == 200
    ensures r.1.Some? <==> body.Ok? && Readable(body.value) && HasParties(body.value)
    ensures body.Ok? && Readable(body.value) && !HasParties(body.value) ==>
      r.0 == Reply(400, Obj([("error", Str(MISSING_PARTIES))]))
    ensures r.1.Some? ==> body.Ok? && r.1.value == QueuedTx(id, TextField(body.value, "from_pubkey"),
      TextField(body.value, "destination_pubkey"), Get(body.value, "amount"), MemoText(body.value), createdAt)
  {
    match body
    case Err(msg) => (Reply(400, Obj([("error", Str("Invalid JSON: " + msg))])), None)
    case Ok(b) =>
      if !Readable(b) then (Reply(400, Obj([("error", Str("Invalid JSON: " + NullBodyMessage(b)))])), None)
      else if !HasParties(b) then (Reply(400, Obj([("error", Str(MISSING_PARTIES))])), None)
      else
        var tx := QueuedTx(id, TextField(b, "from_pubkey"), TextField(b, "destination_pubkey"),
          Get(b, "amount"), MemoText(b), createdAt);
        (Reply(200, Obj([("queued", Bool(true)), ("tx", tx)])), Some(tx))
  }

  /** `body.memo == null ? undefined : String(body.memo)` */
  function MemoText(b: Json): (r: Json)
    ensures r.Undefined? <==> !Present(Get(b, "memo"))
  {
    if Present(Get(b, "memo")) then Str(ToStr(Get(b, "memo"))) else Undefined
  }

  /** With no owner every transaction is listed; otherwise those it sent or received. */
  predicate Involves(tx: Json, owner: string)
  {
    owner == [] || Get(tx, "from_pubkey") == Str(owner) || Get(tx, "destination_pubkey") == Str(owner)
  }

  function Involving(txs: seq<Json>, owner: string): (r: seq<Json>)
    ensures |r| <= |txs|
    decreases |txs|
  {
    if txs == [] then []
    else
      var rest := Involving(txs[..|txs| - 1], owner);
      var last := txs[|txs| - 1];
      if Involves(last, owner) then rest + [last] else rest
  }

  /** Exactly the stored transactions that involve the owner are kept. */
  lemma InvolvingKeeps(txs: seq<Json>, owner: string)
    ensures var r := Involving(txs, owner);
      && (forall i :: 0 <= i < |r| ==> r[i] in txs && Involves(r[i], owner))
      && (forall tx :: tx in txs && Involves(tx, owner) ==> tx in r)
  {
    InvolvingSound(txs, owner);
    InvolvingComplete(txs, owner);
  }

  lemma {:induction false} InvolvingSound(txs: seq<Json>, owner: string)
    ensures forall i :: 0 <= i < |Involving(txs, owner)| ==>
      Involving(txs, owner)[i] in txs && Involves(Involving(txs, owner)[i], owner)
    decreases |txs|
  {
    if txs != [] {
      var init := txs[..|txs| - 1];
      var last := txs[|txs| - 1];
      InvolvingSound(init, owner);
      assert txs == init + [last];
      var rest := Involving(init, owner);
      var r := Involving(txs, owner);
      assert r == if Involves(last, owner) then rest + [last] else rest;
      forall i | 0 <= i < |r|
        ensures r[i] in txs && Involves(r[i], owner)
      {
        if i < |rest| {
          assert r[i] == rest[i] && rest[i] in init;
        } else {
          assert r[i] == last == txs[|txs| - 1];
        }
      }
    }
  }

  lemma {:induction false} InvolvingComplete(txs: seq<Json>, owner: string)
    ensures var r := Involving(txs, owner);
      forall tx :: tx in txs && Involves(tx, owner) ==> tx in r
    decreases |txs|
  {
    if txs != [] {
      var init := txs[..|txs| - 1];
      var last := txs[|txs| - 1];
      InvolvingComplete(init, owner);
      assert txs == init + [last];
      var r := Involving(txs, owner);
      forall tx | tx in txs && Involves(tx, owner)
        ensures tx in r
      {
        if tx != last {
          assert tx in init;
        }
      }
    }
  }

  /** `s.slice(-limit)`, as written: a limit of 0 keeps everything, since `-0` is `0`. */
  function LastAsWritten(s: seq<Json>, limit: Number): (r: seq<Json>)
    ensures limit.Int? && limit.v > 0 ==> r == s[|s| - (if limit.v < |s| then limit.v else |s|)..]
    ensures limit == Int(0) ==> r == s
  {
    match limit
    case Int(v) => JsSlice(s, -v, |s|)
    case NaN => s
    case Infinity(negative) => if negative then [] else s
  }

  /** A limit of 0 lists every transaction instead of none. */
  lemma ZeroLimitListsAll(tx: Json)
    ensures LastAsWritten([tx], Int(0)) == [tx]
  {
  }

  /** The last `limit` items, none for a limit of 0; other limits as written. */
  function LastItems(s: seq<Json>, limit: Number): (r: seq<Json>)
    ensures limit.Int? && limit.v >= 0 ==>
      r == s[|s| - (if limit.v < |s| then limit.v else |s|)..]
    ensures limit.Int? && limit.v >= 0 ==> |r| <= limit.v
    ensures !(limit == Int(0)) ==> r == LastAsWritten(s, limit)
  {
    if limit == Int(0) then [] else LastAsWritten(s, limit)
  }

  /** `filterOptions.limit` when it is a number, else 50. */
  function ListLimit(body: Json): Number
  {
    var filterOptions := Or(Get(body, "filterOptions"), Obj([]));
    if Get(filterOptions, "limit").Num? then Get(filterOptions, "limit").n else Int(50)
  }

  /** The listed transactions, as written: the owner's latest ones, newest first. */
  function Listing(txs: seq<Json>, owner: string, limit: Number): seq<Json>
  {
    Reverse(LastAsWritten(Involving(txs, owner), limit))
  }

  /** The listing with a limit of 0 listing nothing. */
  function IntendedListing(txs: seq<Json>, owner: string, limit: Number): seq<Json>
  {
    Reverse(LastItems(Involving(txs, owner), limit))
  }

  /** `/__mock/getTransactions` */
  function MockListReply(txs: seq<Json>, body: Result<Json>): (r: Reply)
    ensures body.Err? ==> r == Reply(400, Obj([("error", Str("Invalid JSON: " + body.error))]))
    ensures body.Ok? && Readable(body.value) ==> r == Reply(200, Obj([("items", Arr(Listing(txs, TextField(body.value, "owner_pubkey"), ListLimit(body.value))))]))
  {
    match body
    case Err(msg) => Reply(400, Obj([("error", Str("Invalid JSON: " + msg))]))
    case Ok(b) =>
      if !Readable(b) then
        Reply(400, Obj([("error", Str("Invalid JSON: Cannot read properties of " + ToStr(b) + " (reading 'owner_pubkey')"))]))
      else Reply(200, Obj([("items", Arr(Listing(txs, TextField(b, "owner_pubkey"), ListLimit(b))))]))
  }

  /**
   * A listing holds only transactions of the store that involve the owner,
   * newest first: the latest `n` of them for a positive limit `n`, and all
   * of them for a limit of 0.
   */
  lemma ListingMeaning(txs: seq<Json>, owner: string, n: nat)
    ensures var items := Listing(txs, owner, Int(n));
      var kept := Involving(txs, owner);
      && |items| == (if 0 < n < |kept| then n else |kept|)
      && (forall i :: 0 <= i < |items| ==> items[i] in txs && Involves(items[i], owner))
      && (forall i :: 0 <= i < |items| ==> items[i] == kept[|kept| - 1 - i])
  {
    var kept := Involving(txs, owner);
    var m := if 0 < n < |kept| then n else |kept|;
    assert LastAsWritten(kept, Int(n)) == kept[|kept| - m..];
    ListingNewestFirst(txs, owner, kept[|kept| - m..], m);
  }

  /** With a limit of 0 listing nothing, no listing holds more than the limit. */
  lemma IntendedListingMeaning(txs: seq<Json>, owner: string, n: nat)
    ensures var items := IntendedListing(txs, owner, Int(n));
      var kept := Involving(txs, owner);
      && |items| == (if n < |kept| then n else |kept|)
      && (forall i :: 0 <= i < |items| ==> items[i] in txs && Involves(items[i], owner))
      && (forall i :: 0 <= i < |items| ==> items[i] == kept[|kept| - 1 - i])
  {
    var kept := Involving(txs, owner);
    var m := if n < |kept| then n else |kept|;
    assert LastItems(kept, Int(n)) == kept[|kept| - m..];
    ListingNewestFirst(txs, owner, kept[|kept| - m..], m);
  }

  /** The last `m` kept transactions, reversed, are stored ones of the owner, newest first. */
  lemma ListingNewestFirst(txs: seq<Json>, owner: string, last: seq<Json>, m: nat)
    requires var kept := Involving(txs, owner); m <= |kept| && last == kept[|kept| - m..]
    ensures var items := Reverse(last);
      var kept := Involving(txs, owner);
      && |items| == m
      && (forall i :: 0 <= i < |items| ==> items[i] in txs && Involves(items[i], owner))
      && (forall i :: 0 <= i < |items| ==> items[i] == kept[|kept| - 1 - i])
  {
    var kept := Involving(txs, owner);
    var items := Reverse(last);
    ReverseSuffix(kept, m);
    assert NewestFirst(items, kept);
    InvolvingSound(txs, owner);
    assert FromStore(kept, txs, owner);
    NewestFirstMembers(items, kept, txs, owner);
  }

  /** Every item is a stored transaction that involves the owner. */
  predicate FromStore(items: seq<Json>, txs: seq<Json>, owner: string)
  {
    forall i :: 0 <= i < |items| ==> items[i] in txs && Involves(items[i], owner)
  }

  /** `items` are the last elements of `kept`, the newest first. */
  predicate NewestFirst(items: seq<Json>, kept: seq<Json>)
  {
    |items| <= |kept| && forall i :: 0 <= i < |items| ==> items[i] == kept[|kept| - 1 - i]
  }

  lemma NewestFirstMembers(items: seq<Json>, kept: seq<Json>, txs: seq<Json>, owner: string)
    requires NewestFirst(items, kept) && FromStore(kept, txs, owner)
    ensures FromStore(items, txs, owner)
  {
    forall i | 0 <= i < |items|
      ensures items[i] in txs && Involves(items[i], owner)
    {
      var j := |kept| - 1 - i;
      assert kept[j] in txs && Involves(kept[j], owner);
    }
  }

  /** The last `m` elements, reversed: the newest first. */
  lemma ReverseSuffix<T>(s: seq<T>, m: nat)
    requires m <= |s|
    ensures var r := Reverse(s[|s| - m..]);
      |r| == m && forall i :: 0 <= i < m ==> r[i] == s[|s| - 1 - i]
  {
    var r := Reverse(s[|s| - m..]);
    forall i | 0 <= i < m
      ensures r[i] == s[|s| - 1 - i]
    {
      assert r[i] == s[|s| - m..][m - 1 - i];
    }
  }

  /** The server's `mockTransactions`. */
  class MockNode {
    var transactions: seq<Json>

    constructor ()
      ensures transactions == []
    {
      transactions := [];
    }

    /** The send endpoint answers at once; the transaction is only listed once `Deliver` runs. */
    method Send(body: Result<Json>, id: string, createdAt: string) returns (reply: Reply, queued: Option<Json>)
      ensures (reply, queued) == MockSendReply(body, id, createdAt)
    {
      var r := MockSendReply(body, id, createdAt);
      reply, queued := r.0, r.1;
    }

    /** The delayed `mockTransactions.push(tx)`. */
    method Deliver(tx: Json)
      modifies this
      ensures transactions == old(transactions) + [tx]
    {
      transactions := transactions + [tx];
    }

    method List(body: Result<Json>) returns (reply: Reply)
      ensures reply == MockListReply(transactions, body)
    {
      reply := MockListReply(transactions, body);
    }
  }

  /** A delivered transaction heads the listing of either party, whatever the limit. */
  lemma DeliveredListedFirst(txs: seq<Json>, tx: Json, owner: string, n: nat)
    requires Involves(tx, owner)
    ensures var items := Listing(txs + [tx], owner, Int(n));
      items != [] && items[0] == tx
  {
    var kept := Involving(txs + [tx], owner);
    assert (txs + [tx])[..|txs + [tx]| - 1] == txs;
    assert kept[|kept| - 1] == tx;
    ListingMeaning(txs + [tx], owner, n);
  }
}
