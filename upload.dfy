/**
 * The Bilibili upload protocol of the API client: negotiate an upload with
 * `preupload` (trying several lines), open a multipart upload, PUT the file in
 * chunks with bounded retries, complete the multipart upload, then submit the
 * manuscript through the web or the app endpoint.
 */
module BiliUpload {
  import opened Base
  import opened Text
  import opened Dicts
  import opened PyJson
  import opened Http
  import opened UrlEncode
  import opened PathOps

  const PreuploadUrl := "https://member.bilibili.com/preupload"
  const AddUrl := "https://member.bilibili.com/x/vu/web/add/v3"
  const AppAddUrl := "https://member.bilibili.com/x/vu/app/add"
  const AppKey := "4409e2ce8ffd12b8"
  const AppSec := "59b43e04ad6965f34319062b478f83dd"
  const UposProfile := "ugcupos/bup"
  const PreuploadVersion := "2.14.0"
  const PreuploadBuild := "2140000"

  /** The negotiation lines, tried in this order. */
  const PreuploadLines: seq<string> := [
    "probe_version=20250923&upcdn=bldsa&zone=cs",
    "zone=cs&upcdn=bldsa&probe_version=20250923",
    "probe_version=20250923&upcdn=bda2&zone=cs",
    "zone=cs&upcdn=bda2&probe_version=20250923"
  ]

  /** How many lines `preupload` tries. */
  const LineCount: nat := 4

  /** Attempts per chunk in the client. */
  const MaxRetry: nat := 5

  // ---------------------------------------------------------------- preupload

  /** `j.get("OK") in (1, True)`. */
  predicate AcceptedReply(e: Exchange) {
    DictReply(e).Some? && EqInt(Get(DictReply(e).value, "OK"), 1)
  }

  /** What `last_err` holds after a line failed: the exception, or the refused reply. */
  datatype LastError = Exception | Refused(reply: Json)

  function FailureOf(e: Exchange): LastError {
    match DictReply(e)
    case Some(j) => Refused(j)
    case None => Exception
  }

  function PreuploadParams(filename: string, filesize: nat, profile: string): Dict<string> {
    [("os", "upos"), ("name", filename), ("size", NatToString(filesize)), ("r", "upos"),
     ("profile", profile), ("ssl", "0"), ("version", PreuploadVersion), ("build", PreuploadBuild)]
  }

  /** The index of the first accepted reply, if any. */
  function FirstAccepted(replies: seq<Exchange>): (r: Option<nat>)
    ensures r.Some? ==> r.value < |replies| && AcceptedReply(replies[r.value])
    ensures r.Some? ==> forall k :: 0 <= k < r.value ==> !AcceptedReply(replies[k])
    ensures r.None? <==> forall k :: 0 <= k < |replies| ==> !AcceptedReply(replies[k])
  {
    if replies == [] then None
    else if AcceptedReply(replies[0]) then Some(0)
    else match FirstAccepted(replies[1..])
      case Some(k) => Some(k + 1)
      case None => None
  }

  /** The first reply accepted after `k` refusals is found at `k`. */
  lemma FirstAcceptedAt(replies: seq<Exchange>, k: nat)
    requires k < |replies| && AcceptedReply(replies[k])
    requires forall m :: 0 <= m < k ==> !AcceptedReply(replies[m])
    ensures FirstAccepted(replies) == Some(k)
  {
  }

  /** The request for line `k`. */
  function LineRequest(params: Dict<string>, k: nat): Request
    requires k < LineCount
  {
    GetRequest(PreuploadUrl + "?" + PreuploadLines[k], params)
  }

  function LineRequests(params: Dict<string>, n: nat): (r: seq<Request>)
    requires n <= LineCount
    ensures |r| == n
    ensures forall k :: 0 <= k < n ==> r[k] == LineRequest(params, k)
  {
    if n == 0 then [] else LineRequests(params, n - 1) + [LineRequest(params, n - 1)]
  }

  /**
   * `preupload`: asks each line in turn and returns the first reply whose `OK` is 1
   * or True; after every line failed it fails with the last line's error.
   * `replies[k]` is the server's answer on line `k`.
   */
  method Preupload(s: Session, filepath: string, filesize: nat, profile: Option<string>, replies: seq<Exchange>)
    returns (r: Result<Json, LastError>)
    requires |replies| == LineCount
    modifies s`sent
    ensures r.Ok? <==> FirstAccepted(replies).Some?
    ensures r.Ok? ==> r.value == DictReply(replies[FirstAccepted(replies).value]).value
    ensures r.Err? ==> r.error == FailureOf(replies[|replies| - 1])
    ensures s.sent == old(s.sent) + LineRequests(
      PreuploadParams(Basename(filepath), filesize, profile.GetOr(UposProfile)),
      if r.Ok? then FirstAccepted(replies).value + 1 else LineCount)
    ensures s.headers == old(s.headers) && s.cookies == old(s.cookies)
  {
    var params := PreuploadParams(Basename(filepath), filesize, profile.GetOr(UposProfile));
    r := TryLines(s, params, replies);
  }

  /** The loop of `preupload` over the lines, with the query parameters already built. */
  method TryLines(s: Session, params: Dict<string>, replies: seq<Exchange>) returns (r: Result<Json, LastError>)
    requires |replies| == LineCount
    modifies s`sent
    ensures r.Ok? <==> FirstAccepted(replies).Some?
    ensures r.Ok? ==> r.value == DictReply(replies[FirstAccepted(replies).value]).value
    ensures r.Err? ==> r.error == FailureOf(replies[|replies| - 1])
    ensures s.sent == old(s.sent) + LineRequests(params, if r.Ok? then FirstAccepted(replies).value + 1 else LineCount)
    ensures s.headers == old(s.headers) && s.cookies == old(s.cookies)
  {
    var lastErr := Exception;
    for k := 0 to LineCount
      invariant forall m :: 0 <= m < k ==> !AcceptedReply(replies[m])
      invariant k > 0 ==> lastErr == FailureOf(replies[k - 1])
      invariant s.sent == old(s.sent) + LineRequests(params, k)
    {
      s.Send(LineRequest(params, k));
      LineSent(old(s.sent), params, k);
      var e := replies[k];
      if AcceptedReply(e) {
        FirstAcceptedAt(replies, k);
        return Ok(DictReply(e).value);
      }
      lastErr := FailureOf(e);
    }
    return Err(lastErr);
  }

  /** Sending line `k` after the requests for lines before it extends them by one. */
  lemma LineSent(before: seq<Request>, params: Dict<string>, k: nat)
    requires k < LineCount
    ensures before + LineRequests(params, k) + [LineRequest(params, k)]
         == before + LineRequests(params, k + 1)
  {
  }

  // ----------------------------------------------------------- multipart init

  /** The object path of an `upos://` URI. */
  function UploadPath(uposUri: string): string {
    RemoveAll(uposUri, "upos://")
  }

  /** `not j.get("OK") and j.get("OK") != 1` is the failure test of init and completion. */
  predicate MultipartOk(j: Json) {
    !(!Truthy(Get(j, "OK")) && !EqInt(Get(j, "OK"), 1))
  }

  /** A reply counts as OK exactly when its `OK` field is truthy. */
  lemma MultipartOkIsTruthy(j: Json)
    ensures MultipartOk(j) <==> Truthy(Get(j, "OK"))
  {
  }

  /** The POST that opens the multipart upload of the object. */
  function InitRequest(endpoint: string, uposUri: string): Request {
    PostRequest("https:" + endpoint + "/" + UploadPath(uposUri) + "?uploads&output=json", JNull)
  }

  /**
   * `init_multipart`: installs the upload credential as a session header (kept even
   * when the request then fails), posts to the upload object and returns its
   * `upload_id`.
   */
  method InitMultipart(s: Session, endpoint: string, uposUri: string, auth: string, reply: Exchange)
    returns (r: Option<Json>)
    modifies s`headers, s`sent
    ensures s.headers == Put(old(s.headers), "X-Upos-Auth", auth)
    ensures s.sent == old(s.sent) + [InitRequest(endpoint, uposUri)]
    ensures s.cookies == old(s.cookies)
    ensures r.Some? <==> DictReply(reply).Some? && MultipartOk(DictReply(reply).value)
    ensures r.Some? ==> r.value == Get(DictReply(reply).value, "upload_id")
  {
    s.headers := Put(s.headers, "X-Upos-Auth", auth);
    s.sent := s.sent + [InitRequest(endpoint, uposUri)];
    var j := DictReply(reply);
    if j.None? || !MultipartOk(j.value) {
      return None;
    }
    return Some(Get(j.value, "upload_id"));
  }

  // --------------------------------------------------------------------- etag

  /** A case-insensitive header lookup, as `requests` does it. */
  function HeaderGet(headers: Dict<string>, name: string): Option<string> {
    if headers == [] then None
    else if Lower(headers[0].0) == Lower(name) then Some(headers[0].1)
    else HeaderGet(headers[1..], name)
  }

  /** A header read is case-insensitive: it finds a value iff some header's name matches ignoring case. */
  lemma {:induction false} HeaderGetFinds(headers: Dict<string>, name: string)
    ensures var r := HeaderGet(headers, name);
      && (r.Some? ==> exists i :: 0 <= i < |headers| && Lower(headers[i].0) == Lower(name) && headers[i].1 == r.value)
      && (r.None? ==> forall i :: 0 <= i < |headers| ==> Lower(headers[i].0) != Lower(name))
  {
    if headers != [] && Lower(headers[0].0) != Lower(name) {
      HeaderGetFinds(headers[1..], name);
      assert forall i :: 1 <= i < |headers| ==> headers[1..][i - 1] == headers[i];
      var r := HeaderGet(headers, name);
      if r.Some? {
        var i :| 0 <= i < |headers| - 1 && Lower(headers[1..][i].0) == Lower(name) && headers[1..][i].1 == r.value;
        assert headers[i + 1] == headers[1..][i];
      }
    }
  }

  /**
   * `_get_etag_from_response`: a non-empty `ETag` header wins; otherwise the body's
   * `etag` or `ETag` field if truthy; quotes are stripped from both ends.
   */
  function GetEtag(headers: Dict<string>, body: Option<Json>): Option<string> {
    var h := HeaderGet(headers, "ETag");
    if h.Some? && h.value != "" then Some(StripChar(h.value, '"')) else BodyEtag(body)
  }

  /** The body's truthy `etag` or `ETag` field, quotes stripped. */
  function BodyEtag(body: Option<Json>): Option<string> {
    if body.Some? && body.value.JObj? then
      var v := GetOr(body.value, "etag", Get(body.value, "ETag"));
      if Truthy(v) then Some(StripChar(Str(v), '"')) else None
    else None
  }

  /**
   * The header wins when it is there and non-empty; there is no etag iff neither the
   * header nor a truthy body field has one; an etag never starts or ends with a quote.
   */
  lemma GetEtagSpec(headers: Dict<string>, body: Option<Json>)
    ensures var r := GetEtag(headers, body);
      var h := HeaderGet(headers, "ETag");
      && (h.Some? && h.value != "" ==> r == Some(StripChar(h.value, '"')))
      && (r.None? <==> (h.None? || h.value == "")
                       && (body.None? || !body.value.JObj?
                           || (!Truthy(Get(body.value, "etag")) && !Truthy(Get(body.value, "ETag")))))
      && (r.Some? ==> r.value == [] || (r.value[0] != '"' && r.value[|r.value| - 1] != '"'))
  {
    BodyEtagSpec(body);
  }

  lemma BodyEtagSpec(body: Option<Json>)
    ensures var r := BodyEtag(body);
      && (r.None? <==> body.None? || !body.value.JObj?
                       || (!Truthy(Get(body.value, "etag")) && !Truthy(Get(body.value, "ETag"))))
      && (r.Some? ==> r.value == [] || (r.value[0] != '"' && r.value[|r.value| - 1] != '"'))
  {
    if body.Some? && body.value.JObj? {
      var v := GetOr(body.value, "etag", Get(body.value, "ETag"));
      assert Truthy(v) <==> Truthy(Get(body.value, "etag")) || Truthy(Get(body.value, "ETag"));
      if Truthy(v) {
        assert BodyEtag(body) == Some(StripChar(Str(v), '"'));
      } else {
        assert BodyEtag(body) == None;
      }
    }
  }

  /** A quoted tag in the header comes back without its quotes. */
  lemma EtagUnquoted(headers: Dict<string>, body: Option<Json>, tag: string)
    requires tag != [] && tag[0] != '"' && tag[|tag| - 1] != '"'
    requires HeaderGet(headers, "ETag") == Some("\"" + tag + "\"")
    ensures GetEtag(headers, body) == Some(tag)
  {
    var q := "\"" + tag + "\"";
    StripCharQuoted(tag);
  }

  lemma StripCharQuoted(tag: string)
    requires tag != [] && tag[0] != '"' && tag[|tag| - 1] != '"'
    ensures StripChar("\"" + tag + "\"", '"') == tag
  {
    var q := "\"" + tag + "\"";
    var t := tag + "\"";
    assert q[1..] == t;
    assert t[0] == tag[0];
    assert LStripChar(q, '"') == t;
    assert t[..|t| - 1] == tag;
    assert RStripChar(t, '"') == RStripChar(tag, '"');
  }

  /** What goes into the completion body for a chunk: the etag, or "etag" when there is none. */
  function EtagOrDefault(e: Option<string>): (r: string)
    ensures r != ""
    ensures e.Some? && e.value != "" ==> r == e.value
  {
    if e.Some? && e.value != "" then e.value else "etag"
  }

  // ----------------------------------------------------------- chunk geometry

  /**
   * How often the chunk loop runs: `ceil(filesize / chunk_size)`, and no time at
   * all for a negative chunk size, whose quotient is not positive. A chunk size of 0
   * never gets here: the division raises first (see `UploadRun`).
   */
  function ChunkCount(filesize: nat, chunkSize: int): nat
    requires chunkSize != 0
  {
    if chunkSize <= 0 then 0 else (filesize + chunkSize - 1) / chunkSize
  }

  /** The length of chunk `i`: a full chunk, or what is left of the file. */
  function ChunkLen(filesize: nat, chunkSize: nat, i: nat): (r: nat)
    requires chunkSize > 0 && i * chunkSize <= filesize
    ensures r <= chunkSize && i * chunkSize + r <= filesize
    ensures i * chunkSize < filesize ==> r > 0
    ensures i * chunkSize + chunkSize <= filesize ==> r == chunkSize
  {
    if filesize - i * chunkSize < chunkSize then filesize - i * chunkSize else chunkSize
  }

  lemma CountBounds(filesize: nat, chunkSize: nat)
    requires chunkSize > 0
    ensures ChunkCount(filesize, chunkSize) * chunkSize >= filesize
    ensures ChunkCount(filesize, chunkSize) * chunkSize < filesize + chunkSize
  {
    var n := ChunkCount(filesize, chunkSize);
    var x := filesize + chunkSize - 1;
    assert x == n * chunkSize + x % chunkSize;
  }

  /**
   * The chunks tile the file: each is non-empty and at most `chunk_size` long,
   * every chunk but the last is full and ends where the next starts, and the last
   * ends at the file size.
   */
  lemma ChunkTiling(filesize: nat, chunkSize: nat, i: nat)
    requires chunkSize > 0 && i < ChunkCount(filesize, chunkSize)
    ensures i * chunkSize < filesize
    ensures 0 < ChunkLen(filesize, chunkSize, i) <= chunkSize
    ensures i * chunkSize + ChunkLen(filesize, chunkSize, i) <= filesize
    ensures i + 1 < ChunkCount(filesize, chunkSize) ==>
      i * chunkSize + ChunkLen(filesize, chunkSize, i) == (i + 1) * chunkSize
    ensures i + 1 == ChunkCount(filesize, chunkSize) ==>
      i * chunkSize + ChunkLen(filesize, chunkSize, i) == filesize
  {
    var n := ChunkCount(filesize, chunkSize);
    CountBounds(filesize, chunkSize);
    MulMono(i + 1, n, chunkSize);
    MulSucc(i, chunkSize);
    if i + 1 < n {
      MulMono(i + 2, n, chunkSize);
      MulSucc(i + 1, chunkSize);
    }
  }

  lemma MulMono(a: nat, b: nat, c: nat)
    requires a <= b
    ensures a * c <= b * c
  {
    assert b * c == a * c + (b - a) * c;
  }

  lemma MulSucc(a: nat, c: nat)
    ensures (a + 1) * c == a * c + c
  {
  }

  // ------------------------------------------------------------- chunk upload

  /** Where the chunks of one upload go. */
  datatype Target = Target(endpoint: string, path: string, uploadId: string, filesize: nat, chunkSize: int)

  function PartRequest(t: Target, i: nat): Request
    requires t.chunkSize != 0 && i < ChunkCount(t.filesize, t.chunkSize)
  {
    ChunkTiling(t.filesize, t.chunkSize, i);
    var n := ChunkCount(t.filesize, t.chunkSize);
    var len := ChunkLen(t.filesize, t.chunkSize, i);
    var start := i * t.chunkSize;
    PutRequest(
      "https:" + t.endpoint + "/" + t.path + "?partNumber=" + NatToString(i + 1)
      + "&uploadId=" + t.uploadId + "&chunk=" + NatToString(i) + "&chunks=" + NatToString(n)
      + "&size=" + NatToString(len) + "&start=" + NatToString(start) + "&end=" + NatToString(start + len)
      + "&total=" + NatToString(t.filesize),
      start, start + len)
  }

  /** How the PUTs of one chunk ended. */
  datatype PartResult =
    | Stored(attempt: nat, etag: string)
    | Exhausted
    | Threw(attempt: nat)

  /**
   * The attempts of chunk `i` from attempt `from` on: the first 200 stores the
   * chunk, a transport exception escapes, anything else is retried until
   * `maxRetry` attempts were made.
   */
  function PartAttempts(respond: (nat, nat) -> Exchange, i: nat, from: nat, maxRetry: nat): (r: PartResult)
    ensures r.Stored? ==> from <= r.attempt < maxRetry && respond(i, r.attempt).Answered? && respond(i, r.attempt).status == 200
    ensures r.Threw? ==> from <= r.attempt < maxRetry && respond(i, r.attempt).Raised?
    ensures r.Stored? ==> r.etag != ""
    decreases maxRetry - from
  {
    if from >= maxRetry then Exhausted
    else match respond(i, from)
      case Raised => Threw(from)
      case Answered(status, headers, body) =>
        if status == 200 then Stored(from, EtagOrDefault(GetEtag(headers, body)))
        else PartAttempts(respond, i, from + 1, maxRetry)
  }

  /** Every attempt before the deciding one, and every attempt of an exhausted chunk, was answered with another status than 200. */
  lemma {:induction false} EarlierAttemptsFailed(respond: (nat, nat) -> Exchange, i: nat, from: nat, maxRetry: nat, a: nat)
    requires var r := PartAttempts(respond, i, from, maxRetry);
      from <= a < maxRetry && (!r.Exhausted? ==> a < r.attempt)
    ensures respond(i, a).Answered? && respond(i, a).status != 200
    decreases maxRetry - from
  {
    var e := respond(i, from);
    if e.Answered? && e.status != 200 {
      assert PartAttempts(respond, i, from, maxRetry) == PartAttempts(respond, i, from + 1, maxRetry);
      if a > from {
        EarlierAttemptsFailed(respond, i, from + 1, maxRetry, a);
      }
    }
  }

  /** How many PUTs a chunk used. */
  function PartPuts(r: PartResult, maxRetry: nat): nat {
    match r
    case Stored(a, _) => a + 1
    case Threw(a) => a + 1
    case Exhausted => maxRetry
  }

  /** The waits `5 * (attempt + 1)` for the failed attempts `0 .. n-1`. */
  function Backoff(n: nat): (r: seq<nat>)
    ensures |r| == n
    ensures forall k :: 0 <= k < n ==> r[k] == 5 * (k + 1)
  {
    if n == 0 then [] else Backoff(n - 1) + [5 * n]
  }

  /** The waits of a chunk: one after every failed attempt except the last allowed one. */
  function PartSleeps(r: PartResult, maxRetry: nat): seq<nat> {
    match r
    case Stored(a, _) => Backoff(a)
    case Threw(a) => Backoff(a)
    case Exhausted => Backoff(if maxRetry > 0 then maxRetry - 1 else 0)
  }

  function Repeat<T>(x: T, n: nat): (r: seq<T>)
    ensures |r| == n
    ensures forall k :: 0 <= k < n ==> r[k] == x
  {
    if n == 0 then [] else Repeat(x, n - 1) + [x]
  }

  /**
   * A chunk is sent at most `maxRetry` times, and there is exactly one wait
   * between consecutive attempts and none after the last.
   */
  lemma PartBounds(respond: (nat, nat) -> Exchange, i: nat, maxRetry: nat)
    ensures var r := PartAttempts(respond, i, 0, maxRetry);
      PartPuts(r, maxRetry) <= maxRetry
      && (PartPuts(r, maxRetry) > 0 ==> |PartSleeps(r, maxRetry)| == PartPuts(r, maxRetry) - 1)
  {
  }

  /** The retry loop for one chunk. */
  method PutPart(s: Session, req: Request, i: nat, maxRetry: nat, respond: (nat, nat) -> Exchange)
    returns (r: PartResult, sleeps: seq<nat>)
    modifies s`sent
    ensures r == PartAttempts(respond, i, 0, maxRetry)
    ensures sleeps == PartSleeps(r, maxRetry)
    ensures s.sent == old(s.sent) + Repeat(req, PartPuts(r, maxRetry))
    ensures s.headers == old(s.headers) && s.cookies == old(s.cookies)
  {
    var attempt := 0;
    sleeps := [];
    while attempt < maxRetry
      invariant attempt <= maxRetry
      invariant PartAttempts(respond, i, 0, maxRetry) == PartAttempts(respond, i, attempt, maxRetry)
      invariant sleeps == Backoff(if attempt < maxRetry || attempt == 0 then attempt else attempt - 1)
      invariant s.sent == old(s.sent) + Repeat(req, attempt)
    {
      s.sent := s.sent + [req];
      var e := respond(i, attempt);
      if e.Raised? {
        return Threw(attempt), sleeps;
      }
      if e.status == 200 {
        return Stored(attempt, EtagOrDefault(GetEtag(e.headers, e.body))), sleeps;
      }
      if attempt < maxRetry - 1 {
        sleeps := sleeps + [5 * (attempt + 1)];
      }
      attempt := attempt + 1;
    }
    r := Exhausted;
  }

  /** Where the chunk loop stands after some chunks. */
  datatype Progress = Progress(etags: seq<string>, stop: Option<(nat, PartResult)>, sent: seq<Request>, sleeps: seq<nat>)

  /** The chunk loop over the first `k` chunks. */
  function Chunks(t: Target, respond: (nat, nat) -> Exchange, maxRetry: nat, k: nat): (p: Progress)
    requires t.chunkSize != 0 && k <= ChunkCount(t.filesize, t.chunkSize)
    ensures p.stop.None? ==> |p.etags| == k
    ensures p.stop.Some? ==> p.stop.value.0 < k && !p.stop.value.1.Stored?
    ensures forall e :: e in p.etags ==> e != ""
  {
    if k == 0 then Progress([], None, [], [])
    else
      var p := Chunks(t, respond, maxRetry, k - 1);
      if p.stop.Some? then p
      else
        var r := PartAttempts(respond, k - 1, 0, maxRetry);
        var sent := p.sent + Repeat(PartRequest(t, k - 1), PartPuts(r, maxRetry));
        var sleeps := p.sleeps + PartSleeps(r, maxRetry);
        if r.Stored? then Progress(p.etags + [r.etag], None, sent, sleeps)
        else Progress(p.etags, Some((k - 1, r)), sent, sleeps)
  }

  /** The `parts` list of the completion body: numbers 1..n with their etags. */
  function Parts(etags: seq<string>, n: nat): (ps: seq<(nat, string)>)
    ensures |ps| == n
    ensures forall j :: 0 <= j < n ==> ps[j].0 == j + 1 && ps[j].1 == (if j < |etags| then etags[j] else "etag")
  {
    if n == 0 then [] else Parts(etags, n - 1) + [(n, if n - 1 < |etags| then etags[n - 1] else "etag")]
  }

  function PartsJson(ps: seq<(nat, string)>): (r: seq<Json>)
    ensures |r| == |ps|
  {
    if ps == [] then []
    else [JObj([("partNumber", JInt(ps[0].0)), ("eTag", JStr(ps[0].1))])] + PartsJson(ps[1..])
  }

  function CompleteUrl(t: Target, bizId: string, filename: string): string {
    "https:" + t.endpoint + "/" + t.path + "?name=" + QuotePlus(filename) + "&uploadId=" + t.uploadId
    + "&biz_id=" + bizId + "&output=json&profile=ugcupos%2Fbup"
  }

  datatype UploadOutcome =
    | ZeroChunkSize                 // `filesize / float(0)` raised ZeroDivisionError
    | PartFailed(part: nat)
    | PartRaised(part: nat)
    | CompleteFailed
    | Completed(reply: Json)

  /**
   * The outcome of `upload_chunks`, the requests it sends and the waits it makes. A
   * chunk size of 0 raises in the chunk count, before the file is opened.
   */
  function UploadRun(t: Target, bizId: string, filename: string, maxRetry: nat,
                     respond: (nat, nat) -> Exchange, complete: Exchange): (UploadOutcome, seq<Request>, seq<nat>)
  {
    if t.chunkSize == 0 then (ZeroChunkSize, [], [])
    else
      var n := ChunkCount(t.filesize, t.chunkSize);
      var p := Chunks(t, respond, maxRetry, n);
      match p.stop
      case Some((i, r)) => (if r.Exhausted? then PartFailed(i + 1) else PartRaised(i + 1), p.sent, p.sleeps)
      case None =>
        var post := PostRequest(CompleteUrl(t, bizId, filename), JObj([("parts", JList(PartsJson(Parts(p.etags, n))))]));
        var j := DictReply(complete);
        (if j.Some? && MultipartOk(j.value) then Completed(j.value) else CompleteFailed, p.sent + [post], p.sleeps)
  }

  /** The chunk loop of `upload_chunks`: stops at the first chunk that could not be stored. */
  method SendChunks(s: Session, t: Target, maxRetry: nat, respond: (nat, nat) -> Exchange)
    returns (p: Progress)
    requires t.chunkSize != 0
    modifies s`sent
    ensures p == Chunks(t, respond, maxRetry, ChunkCount(t.filesize, t.chunkSize))
    ensures s.sent == old(s.sent) + p.sent
    ensures s.headers == old(s.headers) && s.cookies == old(s.cookies)
  {
    var n := ChunkCount(t.filesize, t.chunkSize);
    p := Progress([], None, [], []);
    for i := 0 to n
      invariant p == Chunks(t, respond, maxRetry, i) && p.stop.None?
      invariant s.sent == old(s.sent) + p.sent
    {
      var req := PartRequest(t, i);
      var r, waits := PutPart(s, req, i, maxRetry, respond);
      ChunksStep(t, respond, maxRetry, i);
      var sent := p.sent + Repeat(req, PartPuts(r, maxRetry));
      assert s.sent == old(s.sent) + sent;
      if !r.Stored? {
        p := Progress(p.etags, Some((i, r)), sent, p.sleeps + waits);
        ChunksStopped(t, respond, maxRetry, i + 1, n);
        return;
      }
      p := Progress(p.etags + [r.etag], None, sent, p.sleeps + waits);
    }
  }

  /**
   * `upload_chunks`: PUTs every chunk with up to `maxRetry` attempts, stops at the
   * first chunk that cannot be stored, and otherwise posts the completion body.
   * `respond(i, a)` is the reply to attempt `a` of chunk `i`; `complete` the reply to
   * the completion.
   */
  method UploadChunks(s: Session, t: Target, bizId: string, filename: string, maxRetry: nat,
                      respond: (nat, nat) -> Exchange, complete: Exchange)
    returns (outcome: UploadOutcome, sleeps: seq<nat>)
    modifies s`sent
    ensures var run := UploadRun(t, bizId, filename, maxRetry, respond, complete);
      outcome == run.0 && s.sent == old(s.sent) + run.1 && sleeps == run.2
    ensures s.headers == old(s.headers) && s.cookies == old(s.cookies)
  {
    if t.chunkSize == 0 {
      return ZeroChunkSize, [];
    }
    var n := ChunkCount(t.filesize, t.chunkSize);
    var p := SendChunks(s, t, maxRetry, respond);
    sleeps := p.sleeps;
    if p.stop.Some? {
      var (i, r) := p.stop.value;
      outcome := if r.Exhausted? then PartFailed(i + 1) else PartRaised(i + 1);
      return;
    }
    var body := JObj([("parts", JList(PartsJson(Parts(p.etags, n))))]);
    s.sent := s.sent + [PostRequest(CompleteUrl(t, bizId, filename), body)];
    var j := DictReply(complete);
    outcome := if j.Some? && MultipartOk(j.value) then Completed(j.value) else CompleteFailed;
  }

  lemma ChunksStep(t: Target, respond: (nat, nat) -> Exchange, maxRetry: nat, i: nat)
    requires t.chunkSize != 0 && i < ChunkCount(t.filesize, t.chunkSize)
    requires Chunks(t, respond, maxRetry, i).stop.None?
    ensures var p := Chunks(t, respond, maxRetry, i);
      var r := PartAttempts(respond, i, 0, maxRetry);
      var sent := p.sent + Repeat(PartRequest(t, i), PartPuts(r, maxRetry));
      var sleeps := p.sleeps + PartSleeps(r, maxRetry);
      Chunks(t, respond, maxRetry, i + 1)
      == if r.Stored? then Progress(p.etags + [r.etag], None, sent, sleeps)
         else Progress(p.etags, Some((i, r)), sent, sleeps)
  {
  }

  lemma ChunksStayStopped(t: Target, respond: (nat, nat) -> Exchange, maxRetry: nat, k: nat)
    requires t.chunkSize != 0 && 0 < k <= ChunkCount(t.filesize, t.chunkSize)
    requires Chunks(t, respond, maxRetry, k - 1).stop.Some?
    ensures Chunks(t, respond, maxRetry, k) == Chunks(t, respond, maxRetry, k - 1)
  {
  }

  /** Once a chunk failed, later chunks change nothing. */
  lemma ChunksStopped(t: Target, respond: (nat, nat) -> Exchange, maxRetry: nat, k: nat, m: nat)
    requires t.chunkSize != 0 && k <= m <= ChunkCount(t.filesize, t.chunkSize)
    requires Chunks(t, respond, maxRetry, k).stop.Some?
    ensures Chunks(t, respond, maxRetry, m) == Chunks(t, respond, maxRetry, k)
  {
    var j := k;
    while j < m
      invariant k <= j <= m
      invariant Chunks(t, respond, maxRetry, j) == Chunks(t, respond, maxRetry, k)
    {
      ChunksStayStopped(t, respond, maxRetry, j + 1);
      j := j + 1;
    }
  }

  /**
   * A chunk size of 0 raises before any request. A negative chunk size gives no
   * chunk: nothing is PUT and the completion is posted at once with an empty part list.
   */
  lemma NoChunksUnlessPositive(t: Target, bizId: string, filename: string, maxRetry: nat,
                               respond: (nat, nat) -> Exchange, complete: Exchange)
    requires t.chunkSize <= 0
    ensures var run := UploadRun(t, bizId, filename, maxRetry, respond, complete);
      t.chunkSize == 0 ==> run == (ZeroChunkSize, [], [])
    ensures var run := UploadRun(t, bizId, filename, maxRetry, respond, complete);
      t.chunkSize < 0 ==>
      && run.1 == [PostRequest(CompleteUrl(t, bizId, filename), JObj([("parts", JList([]))]))]
      && run.2 == []
      && (run.0.Completed? || run.0.CompleteFailed?)
  {
    if t.chunkSize < 0 {
      assert Chunks(t, respond, maxRetry, 0) == Progress([], None, [], []);
      assert PartsJson(Parts([], 0)) == [];
    }
  }

  /**
   * The completion is requested only when every chunk was stored, and then it lists
   * parts 1..N in upload order with the etags the chunks returned.
   */
  lemma CompletionBody(t: Target, bizId: string, filename: string, maxRetry: nat,
                       respond: (nat, nat) -> Exchange, complete: Exchange)
    requires t.chunkSize != 0
    ensures var run := UploadRun(t, bizId, filename, maxRetry, respond, complete);
      var n := ChunkCount(t.filesize, t.chunkSize);
      var p := Chunks(t, respond, maxRetry, n);
      (run.0.PartFailed? || run.0.PartRaised?) <==> p.stop.Some?
    ensures var n := ChunkCount(t.filesize, t.chunkSize);
      var p := Chunks(t, respond, maxRetry, n);
      p.stop.None? ==> forall j :: 0 <= j < n ==> Parts(p.etags, n)[j] == (j + 1, p.etags[j])
  {
    CompletionRequested(t, bizId, filename, maxRetry, respond, complete);
    CompletionParts(t, maxRetry, respond);
  }

  lemma CompletionParts(t: Target, maxRetry: nat, respond: (nat, nat) -> Exchange)
    requires t.chunkSize != 0
    ensures var n := ChunkCount(t.filesize, t.chunkSize);
      var p := Chunks(t, respond, maxRetry, n);
      p.stop.None? ==> forall j :: 0 <= j < n ==> Parts(p.etags, n)[j] == (j + 1, p.etags[j])
  {
    var n := ChunkCount(t.filesize, t.chunkSize);
    var p := Chunks(t, respond, maxRetry, n);
    if p.stop.None? {
      PartsNumbered(p.etags);
    }
  }

  /** With one etag per part, part `j` is numbered `j + 1` and carries the `j`-th etag. */
  lemma PartsNumbered(etags: seq<string>)
    ensures forall j :: 0 <= j < |etags| ==> Parts(etags, |etags|)[j] == (j + 1, etags[j])
  {
    var ps := Parts(etags, |etags|);
    forall j | 0 <= j < |etags| ensures ps[j] == (j + 1, etags[j]) {
      assert ps[j].0 == j + 1 && ps[j].1 == etags[j];
    }
  }

  lemma CompletionRequested(t: Target, bizId: string, filename: string, maxRetry: nat,
                            respond: (nat, nat) -> Exchange, complete: Exchange)
    requires t.chunkSize != 0
    ensures var run := UploadRun(t, bizId, filename, maxRetry, respond, complete);
      var p := Chunks(t, respond, maxRetry, ChunkCount(t.filesize, t.chunkSize));
      (run.0.PartFailed? || run.0.PartRaised?) <==> p.stop.Some?
  {
    var p := Chunks(t, respond, maxRetry, ChunkCount(t.filesize, t.chunkSize));
    var o := UploadRun(t, bizId, filename, maxRetry, respond, complete).0;
    if p.stop.Some? {
      var (i, r) := p.stop.value;
      assert o == (if r.Exhausted? then PartFailed(i + 1) else PartRaised(i + 1));
    } else {
      var j := DictReply(complete);
      assert o == (if j.Some? && MultipartOk(j.value) then Completed(j.value) else CompleteFailed);
    }
  }

  // ------------------------------------------------------------------ submit

  /** The `tag` argument: a ready string, or a list joined with ",". */
  datatype TagArg = TagText(s: string) | TagList(items: seq<string>)

  function TagString(tag: TagArg): string {
    match tag
    case TagText(s) => s
    case TagList(items) => Join(items, ",")
  }

  /** The fourteen fields every manuscript carries, in the order the source writes them. */
  function PayloadFields(source: string, title: string, tid: int, tag: TagArg, noReprint: bool, desc: string,
                         cover: string, dynamic: string, videos: Json): (fs: seq<(string, Json)>)
    ensures |fs| == 14
  {
    [("copyright", JInt(if source != "" then 2 else 1)),
     ("source", JStr(source)),
     ("title", JStr(title)),
     ("tid", JInt(tid)),
     ("tag", JStr(TagString(tag))),
     ("no_reprint", JInt(if noReprint then 1 else 0)),
     ("desc", JStr(desc)),
     ("cover", JStr(cover)),
     ("mission_id", JInt(0)),
     ("order_id", JInt(0)),
     ("videos", videos),
     ("open_elec", JInt(1)),
     ("dynamic", JStr(dynamic)),
     ("subtitle", JObj([("lan", JStr("")), ("open", JInt(1))]))]
  }

  /** The manuscript both submit endpoints receive; `dtime` is added only when given. */
  function Payload(source: string, title: string, tid: int, tag: TagArg, noReprint: bool, desc: string,
                   cover: string, dynamic: string, dtime: Option<int>, videos: Json): (p: Json)
    ensures p.JObj? && |p.fields| >= 14
  {
    var fields := PayloadFields(source, title, tid, tag, noReprint, desc, cover, dynamic, videos);
    JObj(if dtime.Some? then fields + [("dtime", JInt(dtime.value))] else fields)
  }

  /** A manuscript with a source is a repost (copyright 2), one without is original (copyright 1); `dtime` is present exactly when given. */
  lemma PayloadCopyright(source: string, title: string, tid: int, tag: TagArg, noReprint: bool, desc: string,
                         cover: string, dynamic: string, dtime: Option<int>, videos: Json)
    ensures var p := Payload(source, title, tid, tag, noReprint, desc, cover, dynamic, dtime, videos);
      Get(p, "copyright") == JInt(if source != "" then 2 else 1)
      && (HasKey(p, "dtime") <==> dtime.Some?)
      && (dtime.Some? ==> Get(p, "dtime") == JInt(dtime.value))
  {
    var p := Payload(source, title, tid, tag, noReprint, desc, cover, dynamic, dtime, videos);
    var fs := p.fields;
    assert fs[0] == ("copyright", JInt(if source != "" then 2 else 1));
    FieldGetAt(fs, 0, "copyright");
    assert forall j :: 0 <= j < 14 ==> fs[j].0 != "dtime";
    if dtime.Some? {
      assert fs[14] == ("dtime", JInt(dtime.value));
      FieldGetAt(fs, 14, "dtime");
    } else {
      assert |fs| == 14;
    }
  }

  /** The manuscript carries the title and the description it was given. */
  lemma PayloadTitle(source: string, title: string, tid: int, tag: TagArg, noReprint: bool, desc: string,
                     cover: string, dynamic: string, dtime: Option<int>, videos: Json)
    ensures var p := Payload(source, title, tid, tag, noReprint, desc, cover, dynamic, dtime, videos);
      Get(p, "title") == JStr(title) && Get(p, "desc") == JStr(desc)
  {
    PayloadTitleField(source, title, tid, tag, noReprint, desc, cover, dynamic, dtime, videos);
    PayloadDescField(source, title, tid, tag, noReprint, desc, cover, dynamic, dtime, videos);
  }

  lemma PayloadTitleField(source: string, title: string, tid: int, tag: TagArg, noReprint: bool, desc: string,
                          cover: string, dynamic: string, dtime: Option<int>, videos: Json)
    ensures Get(Payload(source, title, tid, tag, noReprint, desc, cover, dynamic, dtime, videos), "title") == JStr(title)
  {
    var fs := Payload(source, title, tid, tag, noReprint, desc, cover, dynamic, dtime, videos).fields;
    assert fs[0].0 == "copyright" && fs[1].0 == "source" && fs[2] == ("title", JStr(title));
    assert "copyright"[0] != "title"[0] && "source"[0] != "title"[0];
    FieldGetAt(fs, 2, "title");
  }

  lemma PayloadDescField(source: string, title: string, tid: int, tag: TagArg, noReprint: bool, desc: string,
                         cover: string, dynamic: string, dtime: Option<int>, videos: Json)
    ensures Get(Payload(source, title, tid, tag, noReprint, desc, cover, dynamic, dtime, videos), "desc") == JStr(desc)
  {
    var fs := Payload(source, title, tid, tag, noReprint, desc, cover, dynamic, dtime, videos).fields;
    var pf := PayloadFields(source, title, tid, tag, noReprint, desc, cover, dynamic, videos);
    assert fs[..14] == pf;
    assert forall j :: 0 <= j < 7 ==> fs[j] == pf[j];
    assert forall j :: 0 <= j < 6 ==> pf[j].0[0] != 'd';
    FieldGetAt(fs, 6, "desc");
  }

  /** The manuscript carries the tag string: a string as given, a list joined with commas. */
  lemma PayloadTag(source: string, title: string, tid: int, tag: TagArg, noReprint: bool, desc: string,
                     cover: string, dynamic: string, dtime: Option<int>, videos: Json)
    ensures var p := Payload(source, title, tid, tag, noReprint, desc, cover, dynamic, dtime, videos);
      Get(p, "tag") == JStr(TagString(tag))
  {
    var p := Payload(source, title, tid, tag, noReprint, desc, cover, dynamic, dtime, videos);
    var fs := p.fields;
    var pf := PayloadFields(source, title, tid, tag, noReprint, desc, cover, dynamic, videos);
    assert fs[..14] == pf;
    assert "tid"[1] != "tag"[1];
    assert forall j :: 0 <= j < 4 ==> fs[j] == pf[j];
    FieldGetAt(fs, 4, "tag");
  }

  /** The manuscript carries the video list it was built from. */
  lemma PayloadVideos(source: string, title: string, tid: int, tag: TagArg, noReprint: bool, desc: string,
                     cover: string, dynamic: string, dtime: Option<int>, videos: Json)
    ensures var p := Payload(source, title, tid, tag, noReprint, desc, cover, dynamic, dtime, videos);
      Get(p, "videos") == videos
  {
    var p := Payload(source, title, tid, tag, noReprint, desc, cover, dynamic, dtime, videos);
    var fs := p.fields;
    var pf := PayloadFields(source, title, tid, tag, noReprint, desc, cover, dynamic, videos);
    assert fs[..14] == pf;
    assert "source"[0] != "videos"[0];
    assert forall j :: 0 <= j < 10 ==> fs[j] == pf[j];
    FieldGetAt(fs, 10, "videos");
  }

  /** How a submission ended. */
  datatype SubmitOutcome =
    | Submitted(reply: Json)
    | SubmitRejected(reply: Json, reencodeHint: bool)
    | TokenExpired
    | SubmitRaised

  /** A submission: its outcome, the number of POSTs and the waits before them. */
  datatype SubmitRun = SubmitRun(outcome: SubmitOutcome, posts: nat, sleeps: seq<nat>)

  predicate CodeIs(e: Exchange, n: int) {
    DictReply(e).Some? && EqInt(Get(DictReply(e).value, "code"), n)
  }

  /**
   * `submit_add`: waits 2 s and posts; code 0 is accepted; code 21015 is retried
   * once after 5 s; any other final reply is an error, with the re-encode hint when
   * the final code is still 21015.
   */
  function SubmitWeb(first: Exchange, second: Exchange): (r: SubmitRun)
    ensures r.posts == 2 <==> CodeIs(first, 21015)
    ensures r.posts == 1 <==> !CodeIs(first, 21015)
    ensures r.sleeps == (if r.posts == 2 then [2, 5] else [2])
    ensures r.outcome.Submitted? <==> CodeIs(first, 0) || (CodeIs(first, 21015) && CodeIs(second, 0))
    ensures r.outcome.Submitted? ==> EqInt(Get(r.outcome.reply, "code"), 0)
    ensures r.outcome.SubmitRejected? ==> !EqInt(Get(r.outcome.reply, "code"), 0)
    ensures r.outcome.SubmitRejected? ==> (r.outcome.reencodeHint <==> EqInt(Get(r.outcome.reply, "code"), 21015))
    ensures !r.outcome.TokenExpired?
  {
    match DictReply(first)
    case None => SubmitRun(SubmitRaised, 1, [2])
    case Some(j) =>
      if EqInt(Get(j, "code"), 0) then SubmitRun(Submitted(j), 1, [2])
      else if EqInt(Get(j, "code"), 21015) then RetryOutcome(second, j, false)
      else SubmitRun(SubmitRejected(j, false), 1, [2])
  }

  /** The codes the app endpoint uses for an invalid access token. */
  predicate TokenCode(e: Exchange) {
    CodeIs(e, -101) || CodeIs(e, -111) || CodeIs(e, -400) || CodeIs(e, -403)
  }

  /**
   * `submit_add_by_app`: like the web submission, except that token errors raise
   * at once without a retry, and a failed retry reports the first reply.
   */
  function SubmitApp(first: Exchange, second: Exchange): (r: SubmitRun)
    ensures r.posts == 2 <==> CodeIs(first, 21015)
    ensures r.posts == 1 <==> !CodeIs(first, 21015)
    ensures r.sleeps == (if r.posts == 2 then [2, 5] else [2])
    ensures r.outcome.TokenExpired? <==> TokenCode(first)
    ensures TokenCode(first) ==> r.posts == 1
    ensures r.outcome.Submitted? <==> CodeIs(first, 0) || (CodeIs(first, 21015) && CodeIs(second, 0))
    ensures r.outcome.Submitted? ==> EqInt(Get(r.outcome.reply, "code"), 0)
    ensures r.outcome.SubmitRejected? ==> DictReply(first) == Some(r.outcome.reply)
    ensures r.outcome.SubmitRejected? ==> (r.outcome.reencodeHint <==> CodeIs(first, 21015))
  {
    match DictReply(first)
    case None => SubmitRun(SubmitRaised, 1, [2])
    case Some(j) =>
      if EqInt(Get(j, "code"), 0) then SubmitRun(Submitted(j), 1, [2])
      else if TokenCode(first) then SubmitRun(TokenExpired, 1, [2])
      else if EqInt(Get(j, "code"), 21015) then RetryOutcome(second, j, true)
      else SubmitRun(SubmitRejected(j, false), 1, [2])
  }

  /** The web submission URL carries the millisecond time and the CSRF token. */
  function WebSubmitUrl(tMs: int, csrf: string): string {
    AddUrl + "?t=" + IntToString(tMs) + "&csrf=" + csrf
  }

  /** The fixed-order query of the app submission. */
  function AppQueryPairs(accessToken: string, ts: int): seq<(string, string)> {
    [("access_key", accessToken), ("appkey", AppKey), ("build", "7800300"), ("c_locale", "zh-Hans_CN"),
     ("channel", "bili"), ("disable_rcmd", "0"), ("mobi_app", "android"), ("platform", "android"),
     ("s_locale", "zh-Hans_CN"), ("statistics", "\"appId\":1,\"platform\":3,\"version\":\"7.80.0\",\"abtest\":\"\""),
     ("ts", IntToString(ts))]
  }

  /** `_sign_app_query`: the MD5 hex digest of the query followed by the app secret. */
  function Sign(md5: string -> string, paramsStr: string, appsec: string): string {
    md5(paramsStr + appsec)
  }

  function AppQuery(accessToken: string, ts: int): string {
    UrlEncodePairs(AppQueryPairs(accessToken, ts))
  }

  /** The app submission URL: the signed query, which opens with the access token. */
  function AppSubmitUrl(md5: string -> string, accessToken: string, ts: int): string {
    var q := AppQuery(accessToken, ts);
    AppAddUrl + "?" + q + "&sign=" + Sign(md5, q, AppSec)
  }

  /** The web submission URL ends in the CSRF token it was given, after the millisecond time. */
  lemma WebUrlCarriesCsrf(tMs: int, csrf: string)
    ensures StartsWith(WebSubmitUrl(tMs, csrf), AddUrl + "?t=" + IntToString(tMs) + "&csrf=")
    ensures EndsWith(WebSubmitUrl(tMs, csrf), "&csrf=" + csrf)
  {
    var head := AddUrl + "?t=" + IntToString(tMs);
    assert WebSubmitUrl(tMs, csrf) == head + ("&csrf=" + csrf);
    assert WebSubmitUrl(tMs, csrf) == (head + "&csrf=") + csrf;
  }

  /** The first field of the app submission's query is the access token, as `access_key`. */
  lemma AppUrlCarriesToken(accessToken: string, ts: int)
    ensures Split(AppQuery(accessToken, ts), '&')[0] == "access_key" + "=" + QuotePlus(accessToken)
  {
    var pairs := AppQueryPairs(accessToken, ts);
    FirstAppField(accessToken, ts);
    FirstFieldOfQuery(pairs);
    AccessKeyUnescaped();
  }

  /** The first field of an encoded query is its first pair, encoded. */
  lemma FirstFieldOfQuery(pairs: seq<(string, string)>)
    requires |pairs| >= 1
    ensures Split(UrlEncodePairs(pairs), '&')[0] == QuotePlus(pairs[0].0) + "=" + QuotePlus(pairs[0].1)
  {
    UrlEncodeSplits(pairs);
  }

  /**
   * `submit_add` through the session: the manuscript goes to the web URL, which
   * carries the millisecond time and the CSRF token, once, and once more after a
   * 21015; the outcome and waits are those of `SubmitWeb`.
   */
  method SubmitAdd(s: Session, csrf: string, tMs: int, payload: Json, first: Exchange, second: Exchange)
    returns (r: SubmitRun)
    modifies s`sent
    ensures r == SubmitWeb(first, second)
    ensures s.sent == old(s.sent) + Repeat(PostRequest(WebSubmitUrl(tMs, csrf), payload), r.posts)
    ensures s.headers == old(s.headers) && s.cookies == old(s.cookies)
  {
    r := PostManuscript(s, PostRequest(WebSubmitUrl(tMs, csrf), payload), false, first, second);
  }

  /**
   * `submit_add_by_app` through the session: the manuscript goes to the signed app
   * URL, which carries the access token, once, and once more after a 21015; the
   * outcome and waits are those of `SubmitApp`.
   */
  method SubmitAddByApp(s: Session, md5: string -> string, accessToken: string, ts: int, payload: Json,
                        first: Exchange, second: Exchange)
    returns (r: SubmitRun)
    modifies s`sent
    ensures r == SubmitApp(first, second)
    ensures s.sent == old(s.sent) + Repeat(PostRequest(AppSubmitUrl(md5, accessToken, ts), payload), r.posts)
    ensures s.headers == old(s.headers) && s.cookies == old(s.cookies)
  {
    r := PostManuscript(s, PostRequest(AppSubmitUrl(md5, accessToken, ts), payload), true, first, second);
  }

  /**
   * The posts both submissions make: `req` once, and once more after a 21015 (on the
   * app endpoint, not after a token error); the outcome is that of `SubmitApp` or
   * `SubmitWeb`.
   */
  method PostManuscript(s: Session, req: Request, app: bool, first: Exchange, second: Exchange)
    returns (r: SubmitRun)
    modifies s`sent
    ensures r == if app then SubmitApp(first, second) else SubmitWeb(first, second)
    ensures s.sent == old(s.sent) + Repeat(req, r.posts)
    ensures s.headers == old(s.headers) && s.cookies == old(s.cookies)
  {
    s.Send(req);
    assert s.sent == old(s.sent) + Repeat(req, 1);
    var j := DictReply(first);
    if j.None? {
      return SubmitRun(SubmitRaised, 1, [2]);
    }
    if EqInt(Get(j.value, "code"), 0) {
      return SubmitRun(Submitted(j.value), 1, [2]);
    }
    if app && TokenCode(first) {
      return SubmitRun(TokenExpired, 1, [2]);
    }
    if !EqInt(Get(j.value, "code"), 21015) {
      return SubmitRun(SubmitRejected(j.value, false), 1, [2]);
    }
    s.Send(req);
    assert s.sent == old(s.sent) + Repeat(req, 2);
    r := RetryOutcome(second, j.value, app);
  }

  /**
   * The second post after a 21015: code 0 is accepted; otherwise the web endpoint
   * reports the second reply, the app endpoint the first one with the re-encode hint.
   */
  function RetryOutcome(second: Exchange, first: Json, app: bool): (r: SubmitRun)
    ensures r.posts == 2 && r.sleeps == [2, 5]
  {
    match DictReply(second)
    case None => SubmitRun(SubmitRaised, 2, [2, 5])
    case Some(j2) =>
      if EqInt(Get(j2, "code"), 0) then SubmitRun(Submitted(j2), 2, [2, 5])
      else if app then SubmitRun(SubmitRejected(first, true), 2, [2, 5])
      else SubmitRun(SubmitRejected(j2, EqInt(Get(j2, "code"), 21015)), 2, [2, 5])
  }

  /**
   * The app URL's query splits into the eleven encoded fields in their fixed order
   * (the access key first, see `FirstAppField`), followed by `sign=` and the digest
   * of exactly the text before it and the app secret (a hex digest holds no `&`).
   */
  lemma AppUrlShape(md5: string -> string, accessToken: string, ts: int)
    requires '&' !in md5(AppQuery(accessToken, ts) + AppSec)
    ensures var q := AppQuery(accessToken, ts);
      var fields := Split(q + "&sign=" + Sign(md5, q, AppSec), '&');
      fields == EncodeFields(AppQueryPairs(accessToken, ts)) + ["sign=" + md5(q + AppSec)]
      && |fields| == 12
  {
    SignedQuerySplit(AppQueryPairs(accessToken, ts), md5(AppQuery(accessToken, ts) + AppSec));
    FirstAppField(accessToken, ts);
  }

  /** A signed query splits into its encoded fields and the signature field. */
  lemma SignedQuerySplit(pairs: seq<(string, string)>, digest: string)
    requires |pairs| >= 1 && '&' !in digest
    ensures Split(UrlEncodePairs(pairs) + "&sign=" + digest, '&') == EncodeFields(pairs) + ["sign=" + digest]
  {
    var fs := EncodeFields(pairs);
    forall i | 0 <= i < |fs| ensures '&' !in fs[i] {
      FieldHasNoAmp(pairs[i].0, pairs[i].1);
    }
    QuerySplitsWithSign(fs, digest);
  }

  lemma FirstAppField(accessToken: string, ts: int)
    ensures |AppQueryPairs(accessToken, ts)| == 11
    ensures EncodeFields(AppQueryPairs(accessToken, ts))[0] == QuotePlus("access_key") + "=" + QuotePlus(accessToken)
  {
  }

  /** The first field name of the app query needs no escaping. */
  lemma AccessKeyUnescaped()
    ensures QuotePlus("access_key") == "access_key"
  {
    QuotePlusUnreserved("access_key");
  }

  /** Appending `&sign=<digest>` to a joined list of `&`-free fields adds one field. */
  lemma QuerySplitsWithSign(fs: seq<string>, digest: string)
    requires |fs| >= 1
    requires forall i :: 0 <= i < |fs| ==> '&' !in fs[i]
    requires '&' !in digest
    ensures Split(Join(fs, "&") + "&sign=" + digest, '&') == fs + ["sign=" + digest]
  {
    var sig := "sign=" + digest;
    SignFieldFree(digest);
    SplitJoin(fs + [sig], '&');
    JoinSnoc(fs, sig);
    assert Join(fs, "&") + "&sign=" + digest == Join(fs, "&") + "&" + sig;
  }

  lemma SignFieldFree(digest: string)
    requires '&' !in digest
    ensures '&' !in "sign=" + digest
  {
    var sig := "sign=" + digest;
    assert forall i :: 5 <= i < |sig| ==> sig[i] == digest[i - 5];
  }

  lemma {:induction false} JoinSnoc(xs: seq<string>, y: string)
    requires |xs| >= 1
    ensures Join(xs + [y], "&") == Join(xs, "&") + "&" + y
  {
    if |xs| > 1 {
      JoinSnoc(xs[1..], y);
      assert (xs + [y])[1..] == xs[1..] + [y];
    }
  }
}
