/**
 * The Bilibili pusher (`BilibiliPusher`): it restores a login from an explicit cookie
 * dict or a cookie file, checks it before every upload, can fall back to the QR login,
 * and runs preupload, multipart upload and submission for one video.
 */
module BiliClient {
  import opened Base
  import opened Text
  import opened Dicts
  import opened PyJson
  import opened Http
  import opened PathOps
  import opened BiliAuth
  import opened BiliUpload
  import opened UrlEncode

  const DefaultCookiePath: string := "cookie.json"
  const MaxTitleLength: nat := 80
  const MaxTags: nat := 12
  const DefaultChunkSize: nat := 4194304

  /** The headers a logged-in session sends with every request. */
  const PageHeaders: Dict<string> := [
    ("User-Agent", "Mozilla/5.0 (Windows NT 10.0; Win64; x64) AppleWebKit/537.36 (KHTML, like Gecko) Chrome/120.0.0.0 Safari/537.36"),
    ("Referer", "https://member.bilibili.com/"),
    ("Origin", "https://member.bilibili.com"),
    ("Accept", "application/json, text/plain, */*")]

  /** Why a pusher call raised. */
  datatype Failure =
    | NoRequests                    // no HTTP session
    | NetworkError                  // a transport error escaped
    | NotLoggedIn
    | TitleTooLong
    | PreuploadFailed(last: LastError)
    | MissingFields                 // the preupload reply lacks endpoint, upos_uri, auth or biz_id
    | MalformedFields               // a preupload field of a type the upload cannot use
    | InitFailed
    | ChunksFailed(upload: UploadOutcome)
    | SubmitFailed(submit: SubmitOutcome)

  /** Python truthiness of the optional cookie dict. */
  predicate HasCookies(d: Option<CookieDict>) {
    d.Some? && d.value != []
  }

  /** The login fields of a pusher. */
  datatype PusherState = PusherState(
    cookiePath: string, cookieDict: Option<CookieDict>, csrf: Option<string>, mid: Option<string>,
    loggedIn: bool, accessToken: Option<Json>)

  // ------------------------------------------------------- restoring a login

  /** What restoring a login did: the new fields, whether the cookies went into the session, whether it raised. */
  datatype Restore = Restore(state: PusherState, applied: bool, raised: bool)

  /** Assigns the result of `login_with_cookie` to the cookie, CSRF and user-id fields. */
  function Adopt(st: PusherState, r: Result<Login, Check>): Restore {
    match r
    case Ok(l) =>
      var ok := l.cookies != [];
      Restore(st.(cookieDict := Some(l.cookies), csrf := Some(l.csrf), mid := l.mid, loggedIn := st.loggedIn || ok), ok, false)
    case Err(CheckRaised) => Restore(st, false, true)
    case Err(_) => Restore(st.(cookieDict := None, csrf := None, mid := None), false, false)
  }

  /**
   * The end of `__init__`: a truthy explicit cookie dict is checked; otherwise, when the
   * cookie path names a file (`file` is its content, `decoded` its JSON), the cookies
   * loaded from it are checked, and a `token_info` with a truthy `access_token` sets the
   * access token even when the check fails.
   */
  function Restored(st: PusherState, file: Option<string>, decoded: Option<Json>, nav: Exchange): Restore {
    if HasCookies(st.cookieDict) then Adopt(st, LoginWithCookie(st.cookieDict.value, nav))
    else if st.cookiePath != "" && file.Some? then FromLoaded(st, LoadedCookies(st.cookiePath, file, decoded), nav)
    else Restore(st, false, false)
  }

  /** The cookie-file branch: the loaded cookies are checked when truthy, and a truthy access token is taken. */
  function FromLoaded(st: PusherState, loaded: (Option<CookieDict>, Option<Json>), nav: Exchange): Restore {
    if HasCookies(loaded.0) then
      var a := Adopt(st, LoginWithCookie(loaded.0.value, nav));
      var info := loaded.1;
      if !a.raised && info.Some? && Truthy(info.value) && Truthy(Get(info.value, "access_token"))
      then a.(state := a.state.(accessToken := Some(Get(info.value, "access_token"))))
      else a
    else Restore(st, false, false)
  }

  /** A restore that logs in does so with a SESSDATA cookie the account endpoint accepted. */
  lemma RestoredLogsInOnlyValid(st: PusherState, file: Option<string>, decoded: Option<Json>, nav: Exchange)
    requires !st.loggedIn
    ensures var r := Restored(st, file, decoded, nav);
      r.state.loggedIn ==> (r.applied && !r.raised && r.state.cookieDict.Some?
        && HasValue(r.state.cookieDict.value, "SESSDATA")
        && CheckCookie(r.state.cookieDict.value, nav).Valid?)
  {
  }

  /** An explicit cookie dict wins: the cookie file is not read at all. */
  lemma ExplicitCookiesWin(st: PusherState, file: Option<string>, decoded: Option<Json>,
                           file': Option<string>, decoded': Option<Json>, nav: Exchange)
    requires HasCookies(st.cookieDict)
    ensures Restored(st, file, decoded, nav) == Restored(st, file', decoded', nav)
    ensures Restored(st, file, decoded, nav).state.accessToken == st.accessToken
  {
  }

  /** The access token changes only through a cookie file whose `token_info` holds a truthy one. */
  lemma AccessTokenFromFileOnly(st: PusherState, file: Option<string>, decoded: Option<Json>, nav: Exchange)
    ensures var r := Restored(st, file, decoded, nav);
      r.state.accessToken != st.accessToken ==>
        !HasCookies(st.cookieDict) && file.Some? && HasCookies(LoadedCookies(st.cookiePath, file, decoded).0)
        && LoadedCookies(st.cookiePath, file, decoded).1.Some?
        && r.state.accessToken == Some(Get(LoadedCookies(st.cookiePath, file, decoded).1.value, "access_token"))
        && Truthy(r.state.accessToken.value)
  {
    if !HasCookies(st.cookieDict) && st.cookiePath != "" && file.Some? {
      LoadedTokenTaken(st, LoadedCookies(st.cookiePath, file, decoded), nav);
    }
  }

  /** The cookie-file branch changes the access token only to the truthy one its `token_info` holds. */
  lemma LoadedTokenTaken(st: PusherState, loaded: (Option<CookieDict>, Option<Json>), nav: Exchange)
    ensures var r := FromLoaded(st, loaded, nav);
      r.state.accessToken != st.accessToken ==>
        HasCookies(loaded.0) && loaded.1.Some? && r.state.accessToken == Some(Get(loaded.1.value, "access_token"))
        && Truthy(r.state.accessToken.value)
  {
  }

  /**
   * What the QR login saves restores the login: a fresh pusher pointed at the saved file
   * logs in with the saved cookies and takes the saved access token.
   */
  lemma QrSaveRestores(st: PusherState, text: string, d: CookieDict, tokenInfo: Json, now: int, nav: Exchange)
    requires !st.loggedIn && !HasCookies(st.cookieDict) && st.cookiePath != ""
    requires StartsWith(Strip(text), "{")
    requires DistinctKeys(d) && LoginCookies(d)
    requires forall i :: 0 <= i < |d| ==> d[i].0 != ""
    requires CheckCookie(d, nav).Valid?
    requires tokenInfo.JObj? && Truthy(Get(tokenInfo, "access_token"))
    ensures var r := Restored(st, Some(text), Some(SaveData(d, Some(tokenInfo), now)), nav);
      r.state.loggedIn && r.applied && r.state.cookieDict == Some(d)
      && r.state.accessToken == Some(Get(tokenInfo, "access_token"))
  {
    assert tokenInfo.fields != [];
    SavedCookiesLoad(st.cookiePath, text, d, Some(tokenInfo), now);
    assert HasValue(d, "SESSDATA");
  }

  // ------------------------------------------------------- re-checking a login

  /**
   * `is_logged_in`: without the logged-in flag or a truthy cookie dict the answer is no
   * and nothing is sent; otherwise the account endpoint decides, and a rejection clears
   * the flag.
   */
  function Recheck(st: PusherState, nav: Exchange): (Result<bool, Failure>, PusherState) {
    if !st.loggedIn || !HasCookies(st.cookieDict) then (Ok(false), st)
    else match CheckCookie(st.cookieDict.value, nav)
      case Valid(_) => (Ok(true), st)
      case Invalid => (Ok(false), st.(loggedIn := false))
      case CheckRaised => (Err(NetworkError), st)
  }

  /** A re-check answers yes exactly when the flag is set and the account endpoint accepts the cookies. */
  lemma RecheckYes(st: PusherState, nav: Exchange)
    ensures Recheck(st, nav).0 == Ok(true) <==>
      st.loggedIn && st.cookieDict.Some? && CheckCookie(st.cookieDict.value, nav).Valid?
    ensures Recheck(st, nav).1 == st.(loggedIn := Recheck(st, nav).1.loggedIn)
  {
    if st.cookieDict.Some? && st.cookieDict.value == [] {
      assert !HasValue(st.cookieDict.value, "SESSDATA");
    }
  }

  /** Once a re-check says no, every later re-check says no without asking the server. */
  lemma RecheckSettles(st: PusherState, nav: Exchange, nav': Exchange)
    requires Recheck(st, nav).0 == Ok(false)
    ensures var st' := Recheck(st, nav).1;
      Recheck(st', nav') == (Ok(false), st')
  {
  }

  // ------------------------------------------------------- logging in

  /** Assigns the four results of `login_with_qrcode`; every outcome but a finished scan yields four Nones. */
  function QrAdopt(st: PusherState, o: QrOutcome): PusherState {
    match o
    case QrFinished(Some(l), token) =>
      st.(cookieDict := Some(l.cookies), csrf := Some(l.csrf), mid := l.mid, accessToken := token)
    case QrFinished(None, token) =>
      st.(cookieDict := None, csrf := None, mid := None, accessToken := token)
    case _ =>
      st.(cookieDict := None, csrf := None, mid := None, accessToken := None)
  }

  /**
   * `login`: a login that re-checks fine succeeds; otherwise, when asked to and when
   * there is a session, the QR login runs and saves its cookies at the cookie path; it
   * succeeds when it yields a truthy cookie dict.
   */
  function LoginSpec(st: PusherState, hasSession: bool, useQrcode: bool, nav: Exchange,
                     gen: Exchange, ps: seq<PollReplies>): (Result<bool, Failure>, PusherState)
    requires |ps| == MaxPolls
  {
    var (c, st1) := Recheck(st, nav);
    if c.Err? || c.value || !(useQrcode && hasSession) then (c, st1)
    else
      var o := QrLogin(gen, ps, true).outcome;
      if o.QrRaised? then (Err(NetworkError), st1)
      else
        var st2 := QrAdopt(st1, o);
        if HasCookies(st2.cookieDict) then (Ok(true), st2.(loggedIn := true)) else (Ok(false), st2)
  }

  /** A login that succeeds leaves the pusher logged in with a SESSDATA cookie that was accepted. */
  lemma LoginSucceeds(st: PusherState, hasSession: bool, useQrcode: bool, nav: Exchange,
                      gen: Exchange, ps: seq<PollReplies>)
    requires |ps| == MaxPolls
    ensures var (r, st') := LoginSpec(st, hasSession, useQrcode, nav, gen, ps);
      r == Ok(true) ==> st'.loggedIn && st'.cookieDict.Some? && HasValue(st'.cookieDict.value, "SESSDATA")
  {
    var (c, st1) := Recheck(st, nav);
    RecheckYes(st, nav);
    if c == Ok(true) {
      assert CheckCookie(st.cookieDict.value, nav).Valid?;
    } else if c == Ok(false) && useQrcode && hasSession {
      var o := QrLogin(gen, ps, true).outcome;
      QrLoginFinished(gen, ps);
      AdoptSucceeds(st1, o);
    }
  }

  /** Adopting a QR outcome leaves usable cookies only when it logged in, and then they are the login's. */
  lemma AdoptSucceeds(st: PusherState, o: QrOutcome)
    requires o.QrFinished? && o.login.Some? ==> HasValue(o.login.value.cookies, "SESSDATA")
    ensures var st2 := QrAdopt(st, o);
      HasCookies(st2.cookieDict) ==> st2.cookieDict.Some? && HasValue(st2.cookieDict.value, "SESSDATA")
  {
  }

  /** The QR login's cookies carry a session cookie. */
  lemma QrLoginFinished(gen: Exchange, ps: seq<PollReplies>)
    requires |ps| == MaxPolls
    ensures var o := QrLogin(gen, ps, true).outcome;
      o.QrFinished? && o.login.Some? ==> HasValue(o.login.value.cookies, "SESSDATA")
  {
    if !gen.Raised? && QrKey(gen).Some? {
      FinishedLoginCookies(ps, 0, Str(QrKey(gen).value), true);
    }
  }

  /** Without the QR option a login never changes the access token and never clears the cookies. */
  lemma LoginWithoutQrcode(st: PusherState, hasSession: bool, nav: Exchange, gen: Exchange, ps: seq<PollReplies>)
    requires |ps| == MaxPolls
    ensures var (r, st') := LoginSpec(st, hasSession, false, nav, gen, ps);
      st'.accessToken == st.accessToken && st'.cookieDict == st.cookieDict && (r == Ok(true) ==> st'.loggedIn)
  {
  }

  // ------------------------------------------------------- upload arguments

  /** `[t.strip() for t in tag.split(",") if t.strip()]` on the pieces. */
  function Kept(xs: seq<string>): (r: seq<string>)
    ensures |r| <= |xs|
  {
    if xs == [] then []
    else (if Strip(xs[0]) != "" then [Strip(xs[0])] else []) + Kept(xs[1..])
  }

  /** The kept tags are stripped, non-empty and free of a character no piece held. */
  lemma {:induction false} KeptClean(xs: seq<string>, c: char)
    requires forall i :: 0 <= i < |xs| ==> c !in xs[i]
    ensures forall i :: 0 <= i < |Kept(xs)| ==> Kept(xs)[i] != "" && Trimmed(Kept(xs)[i]) && c !in Kept(xs)[i]
  {
    if xs != [] {
      KeptClean(xs[1..], c);
      StripKeepsOut(xs[0], c);
      var head := if Strip(xs[0]) != "" then [Strip(xs[0])] else [];
      assert Kept(xs) == head + Kept(xs[1..]);
    }
  }

  /** `tag or []`, then a string is split on commas into its stripped, non-empty pieces. */
  function NormalTags(tag: Option<TagArg>): seq<string> {
    match tag
    case None => []
    case Some(TagText(s)) => if s == "" then [] else Kept(Split(s, ','))
    case Some(TagList(items)) => items
  }

  /** `",".join(tag[:12])`. */
  function JoinedTags(tags: seq<string>): string {
    Join(tags[..if |tags| < MaxTags then |tags| else MaxTags], ",")
  }

  /**
   * A tag string comes back, split on commas, as its first twelve stripped, non-empty
   * pieces: the submitted tag string carries at most twelve tags.
   */
  lemma TagTextRoundTrip(s: string)
    requires NormalTags(Some(TagText(s))) != []
    ensures var tags := NormalTags(Some(TagText(s)));
      var sent := Split(JoinedTags(tags), ',');
      |sent| <= MaxTags && |sent| <= |tags| && sent == tags[..|sent|]
      && forall i :: 0 <= i < |sent| ==> sent[i] != "" && Trimmed(sent[i])
  {
    var tags := NormalTags(Some(TagText(s)));
    KeptClean(Split(s, ','), ',');
    var n := if |tags| < MaxTags then |tags| else MaxTags;
    SplitJoin(tags[..n], ',');
  }

  /** The fields the upload takes from the preupload reply. */
  datatype Fields = Fields(endpoint: string, uposUri: string, auth: string, bizId: string, chunkSize: int)

  /**
   * Reads endpoint, upos_uri/uposUri, auth, biz_id/bizId and chunk_size/chunkSize
   * (4194304 when neither is truthy) from the preupload reply; endpoint, upos_uri and
   * auth must be truthy and the biz id not None. A truthy chunk size is any non-zero
   * integer, negative ones included, or `True`, which Python uses as 1.
   */
  function PreuploadFields(pre: Json): (r: Result<Fields, Failure>)
    ensures r.Ok? ==> r.value.chunkSize != 0 && r.value.uposUri != "" && r.value.auth != ""
  {
    var endpoint := Get(pre, "endpoint");
    var uposUri := GetOr(pre, "upos_uri", Get(pre, "uposUri"));
    var auth := Get(pre, "auth");
    var bizId := GetOr(pre, "biz_id", Get(pre, "bizId"));
    var chunk := GetOr(pre, "chunk_size", GetOr(pre, "chunkSize", JInt(DefaultChunkSize)));
    if !(Truthy(endpoint) && Truthy(uposUri) && Truthy(auth) && bizId != JNull) then Err(MissingFields)
    else if !uposUri.JStr? || !auth.JStr? || !(chunk.JInt? || chunk == JBool(true)) then Err(MalformedFields)
    else Ok(Fields(Str(endpoint), uposUri.s, auth.s, Str(bizId), if chunk.JInt? then chunk.i else 1))
  }

  /** A camelCase reply is read like its snake_case twin, and the chunk size defaults to 4 MiB. */
  lemma PreuploadCamelCase(endpoint: string, uri: string, auth: string, bizId: int)
    requires endpoint != "" && uri != "" && auth != ""
    ensures PreuploadFields(JObj([("endpoint", JStr(endpoint)), ("uposUri", JStr(uri)), ("auth", JStr(auth)),
                                  ("bizId", JInt(bizId))]))
         == Ok(Fields(endpoint, uri, auth, IntToString(bizId), DefaultChunkSize))
  {
    var pre := JObj([("endpoint", JStr(endpoint)), ("uposUri", JStr(uri)), ("auth", JStr(auth)), ("bizId", JInt(bizId))]);
    CamelCaseGets(pre.fields);
    assert Get(pre, "endpoint") == JStr(endpoint) && Get(pre, "auth") == JStr(auth);
    assert Get(pre, "upos_uri") == JNull && Get(pre, "uposUri") == JStr(uri);
    assert Get(pre, "biz_id") == JNull && Get(pre, "bizId") == JInt(bizId);
    assert Get(pre, "chunk_size") == JNull && Get(pre, "chunkSize") == JNull;
    PreuploadFieldsRead(pre, endpoint, uri, auth, JInt(bizId), DefaultChunkSize);
  }

  /** The four camelCase keys are read from their positions; the snake_case ones are absent. */
  lemma CamelCaseGets(fields: seq<(string, Json)>)
    requires |fields| == 4
    requires fields[0].0 == "endpoint" && fields[1].0 == "uposUri" && fields[2].0 == "auth" && fields[3].0 == "bizId"
    ensures FieldGet(fields, "endpoint") == Some(fields[0].1)
    ensures FieldGet(fields, "uposUri") == Some(fields[1].1)
    ensures FieldGet(fields, "auth") == Some(fields[2].1)
    ensures FieldGet(fields, "bizId") == Some(fields[3].1)
    ensures FieldGet(fields, "upos_uri").None? && FieldGet(fields, "biz_id").None?
    ensures FieldGet(fields, "chunk_size").None? && FieldGet(fields, "chunkSize").None?
  {
    CamelCaseLacksSnake(fields);
    assert "endpoint"[0] == 'e' && "uposUri"[0] == 'u' && "auth"[0] == 'a' && "bizId"[0] == 'b';
    FieldGetAt(fields, 0, "endpoint");
    FieldGetAt(fields, 1, "uposUri");
    FieldGetAt(fields, 2, "auth");
    FieldGetAt(fields, 3, "bizId");
  }

  lemma CamelCaseLacksSnake(fields: seq<(string, Json)>)
    requires |fields| == 4
    requires fields[0].0 == "endpoint" && fields[1].0 == "uposUri" && fields[2].0 == "auth" && fields[3].0 == "bizId"
    ensures FieldGet(fields, "upos_uri").None? && FieldGet(fields, "biz_id").None?
    ensures FieldGet(fields, "chunk_size").None? && FieldGet(fields, "chunkSize").None?
  {
    assert fields[1].0[4] != "upos_uri"[4] && fields[3].0[3] != "biz_id"[3];
    assert fields[0].0[0] != 'u' && fields[2].0[0] != 'u' && fields[3].0[0] != 'u';
    assert fields[0].0[0] != 'b' && fields[1].0[0] != 'b' && fields[2].0[0] != 'b';
    assert forall i :: 0 <= i < 4 ==> fields[i].0[0] != 'c';
  }

  /** The snake_case reply the current servers send. */
  lemma PreuploadSnakeCase(endpoint: string, uri: string, auth: string, bizId: int, chunkSize: int)
    requires endpoint != "" && uri != "" && auth != "" && bizId != 0 && chunkSize != 0
    ensures PreuploadFields(JObj([("endpoint", JStr(endpoint)), ("upos_uri", JStr(uri)), ("auth", JStr(auth)),
                                  ("biz_id", JInt(bizId)), ("chunk_size", JInt(chunkSize))]))
         == Ok(Fields(endpoint, uri, auth, IntToString(bizId), chunkSize))
  {
    var pre := JObj([("endpoint", JStr(endpoint)), ("upos_uri", JStr(uri)), ("auth", JStr(auth)), ("biz_id", JInt(bizId)),
                     ("chunk_size", JInt(chunkSize))]);
    SnakeCaseGets(pre.fields);
    assert Get(pre, "endpoint") == JStr(endpoint) && Get(pre, "auth") == JStr(auth);
    assert Get(pre, "upos_uri") == JStr(uri) && Get(pre, "biz_id") == JInt(bizId) && Get(pre, "chunk_size") == JInt(chunkSize);
    PreuploadFieldsRead(pre, endpoint, uri, auth, JInt(bizId), chunkSize);
  }

  /** The fields are taken as the lookups give them when every one is present and well-formed. */
  lemma PreuploadFieldsRead(pre: Json, endpoint: string, uri: string, auth: string, bizId: Json, chunkSize: int)
    requires Get(pre, "endpoint") == JStr(endpoint) && endpoint != ""
    requires GetOr(pre, "upos_uri", Get(pre, "uposUri")) == JStr(uri) && uri != ""
    requires Get(pre, "auth") == JStr(auth) && auth != ""
    requires GetOr(pre, "biz_id", Get(pre, "bizId")) == bizId && bizId != JNull
    requires GetOr(pre, "chunk_size", GetOr(pre, "chunkSize", JInt(DefaultChunkSize))) == JInt(chunkSize) && chunkSize != 0
    ensures PreuploadFields(pre) == Ok(Fields(endpoint, uri, auth, Str(bizId), chunkSize))
  {
  }

  /** A `True` chunk size is taken as 1, as Python's arithmetic and `f.read` take it. */
  lemma PreuploadTrueChunkSize(endpoint: string, uri: string, auth: string, bizId: int)
    requires endpoint != "" && uri != "" && auth != "" && bizId != 0
    ensures PreuploadFields(JObj([("endpoint", JStr(endpoint)), ("upos_uri", JStr(uri)), ("auth", JStr(auth)),
                                  ("biz_id", JInt(bizId)), ("chunk_size", JBool(true))]))
         == Ok(Fields(endpoint, uri, auth, IntToString(bizId), 1))
  {
    var pre := JObj([("endpoint", JStr(endpoint)), ("upos_uri", JStr(uri)), ("auth", JStr(auth)), ("biz_id", JInt(bizId)),
                     ("chunk_size", JBool(true))]);
    SnakeCaseGets(pre.fields);
    assert Get(pre, "endpoint") == JStr(endpoint) && Get(pre, "auth") == JStr(auth);
    assert Get(pre, "upos_uri") == JStr(uri) && Get(pre, "biz_id") == JInt(bizId) && Get(pre, "chunk_size") == JBool(true);
    PreuploadFieldsReadTrue(pre, endpoint, uri, auth, JInt(bizId));
  }

  lemma PreuploadFieldsReadTrue(pre: Json, endpoint: string, uri: string, auth: string, bizId: Json)
    requires Get(pre, "endpoint") == JStr(endpoint) && endpoint != ""
    requires GetOr(pre, "upos_uri", Get(pre, "uposUri")) == JStr(uri) && uri != ""
    requires Get(pre, "auth") == JStr(auth) && auth != ""
    requires GetOr(pre, "biz_id", Get(pre, "bizId")) == bizId && bizId != JNull
    requires GetOr(pre, "chunk_size", GetOr(pre, "chunkSize", JInt(DefaultChunkSize))) == JBool(true)
    ensures PreuploadFields(pre) == Ok(Fields(endpoint, uri, auth, Str(bizId), 1))
  {
  }

  /** Each of the five snake_case keys is read from its own position. */
  lemma SnakeCaseGets(fields: seq<(string, Json)>)
    requires |fields| == 5
    requires fields[0].0 == "endpoint" && fields[1].0 == "upos_uri" && fields[2].0 == "auth"
    requires fields[3].0 == "biz_id" && fields[4].0 == "chunk_size"
    ensures FieldGet(fields, "endpoint") == Some(fields[0].1)
    ensures FieldGet(fields, "upos_uri") == Some(fields[1].1)
    ensures FieldGet(fields, "auth") == Some(fields[2].1)
    ensures FieldGet(fields, "biz_id") == Some(fields[3].1)
    ensures FieldGet(fields, "chunk_size") == Some(fields[4].1)
  {
    assert "endpoint"[0] == 'e' && "upos_uri"[0] == 'u' && "auth"[0] == 'a' && "biz_id"[0] == 'b' && "chunk_size"[0] == 'c';
    FieldGetAt(fields, 0, "endpoint");
    FieldGetAt(fields, 1, "upos_uri");
    FieldGetAt(fields, 2, "auth");
    FieldGetAt(fields, 3, "biz_id");
    FieldGetAt(fields, 4, "chunk_size");
  }

  /**
   * A snake_case biz id of 0 is falsy, so the camelCase key is read instead; without
   * one the reply counts as lacking its biz id.
   */
  lemma PreuploadZeroBizId(endpoint: string, uri: string, auth: string)
    requires endpoint != "" && uri != "" && auth != ""
    ensures PreuploadFields(JObj([("endpoint", JStr(endpoint)), ("upos_uri", JStr(uri)), ("auth", JStr(auth)),
                                  ("biz_id", JInt(0))])) == Err(MissingFields)
  {
    var pre := JObj([("endpoint", JStr(endpoint)), ("upos_uri", JStr(uri)), ("auth", JStr(auth)), ("biz_id", JInt(0))]);
    FieldGetAt(pre.fields, 3, "biz_id");
    assert Get(pre, "bizId") == JNull;
  }

  /** A reply without endpoint, upload URI or auth is refused before anything is uploaded. */
  lemma PreuploadNeedsFields(pre: Json)
    requires !Truthy(Get(pre, "endpoint")) || !Truthy(Get(pre, "auth"))
      || (!Truthy(Get(pre, "upos_uri")) && !Truthy(Get(pre, "uposUri")))
      || (!Truthy(Get(pre, "biz_id")) && Get(pre, "bizId") == JNull)
    ensures PreuploadFields(pre) == Err(MissingFields)
  {
  }

  /** `s.rsplit(".", 1)[0]`: everything before the last dot, or all of `s`. */
  function BeforeLastDot(s: string): (r: string)
    ensures '.' !in s ==> r == s
    ensures '.' in s ==> |r| < |s| && s == r + "." + s[|r| + 1..] && '.' !in s[|r| + 1..]
  {
    var i := LastIndex(s, '.');
    if i < 0 then s
    else
      var t := s[i + 1..];
      assert forall j :: 0 <= j < |t| ==> t[j] == s[i + 1 + j];
      assert s == s[..i] + "." + t;
      s[..i]
  }

  /**
   * The submitted file name: the stem of the last component of the upload URI (query
   * and `upos://` removed), unless the completion reply carries a truthy `filename`
   * (else `key`), which is used without its last extension.
   */
  function SubmitKey(uposUri: string, complete: Json): Json {
    var key := JStr(PathlibStem(RemoveAll(Split(uposUri, '?')[0], "upos://")));
    var given := GetOr(complete, "filename", Get(complete, "key"));
    if Truthy(complete) && Truthy(given) then
      if '.' !in Str(given) then given else JStr(BeforeLastDot(Str(given)))
    else key
  }

  /** A completion reply naming `stem.ext` is submitted as `stem`; one without a name falls back to the URI's stem. */
  lemma SubmitKeyDropsExtension(uposUri: string, complete: Json, stem: string, ext: string)
    requires Get(complete, "filename") == JStr(stem + "." + ext)
    requires '.' !in ext
    ensures SubmitKey(uposUri, complete) == JStr(stem)
  {
    var s := stem + "." + ext;
    assert s[|stem|] == '.';
    assert complete.JObj? && complete.fields != [];
    LastIndexAfter(stem, '.', ext);
    assert s[..|stem|] == stem;
  }

  /** Without a truthy name in the completion reply, the key is the stem of the upload URI's last component. */
  lemma SubmitKeyFromUri(uposUri: string, complete: Json)
    requires !Truthy(Get(complete, "filename")) && !Truthy(Get(complete, "key"))
    ensures SubmitKey(uposUri, complete) == JStr(PathlibStem(RemoveAll(Split(uposUri, '?')[0], "upos://")))
  {
  }

  /** The single part the manuscript lists. */
  function Videos(key: Json, title: string, desc: string): Json {
    JList([JObj([("filename", key), ("title", JStr(title)), ("desc", JStr(desc))])])
  }

  // ------------------------------------------------------- uploading

  /** What `upload` is given besides the world's replies. */
  datatype Manuscript = Manuscript(
    videoPath: string, title: string, desc: string, tid: int, tag: Option<TagArg>, source: string,
    cover: string, noReprint: bool, dynamic: string, dtime: Option<int>)

  /**
   * What the world answers during an upload: the account check, the file size, the
   * preupload lines, the multipart init, each part attempt, the completion and the one
   * or two submission posts; with the clock read in milliseconds (web) and seconds
   * (app) when the submission URL is built, and the MD5 digest the app query is
   * signed with.
   */
  datatype UploadWorld = UploadWorld(
    nav: Exchange, filesize: nat, preupload: seq<Exchange>, init: Exchange,
    respond: (nat, nat) -> Exchange, complete: Exchange, first: Exchange, second: Exchange,
    tMs: int, ts: int, md5: string -> string)

  /** The credential a submission carries: the CSRF token on the web endpoint, the access token on the app endpoint. */
  datatype Credential = WebCsrf(csrf: string) | AppToken(accessToken: string)

  /**
   * A truthy access token picks the app endpoint and goes into its query as `str()`;
   * otherwise the CSRF field is formatted into the web URL, None as "None".
   */
  function CredentialOf(st: PusherState): (c: Credential)
    ensures c.AppToken? <==> st.accessToken.Some? && Truthy(st.accessToken.value)
    ensures c.AppToken? ==> c.accessToken == Str(st.accessToken.value)
    ensures c.WebCsrf? ==> c.csrf == (if st.csrf.Some? then st.csrf.value else "None")
  {
    if st.accessToken.Some? && Truthy(st.accessToken.value) then AppToken(Str(st.accessToken.value))
    else WebCsrf(if st.csrf.Some? then st.csrf.value else "None")
  }

  /** The URL the manuscript is posted to. */
  function SubmitUrl(c: Credential, w: UploadWorld): string {
    match c
    case WebCsrf(csrf) => WebSubmitUrl(w.tMs, csrf)
    case AppToken(token) => AppSubmitUrl(w.md5, token, w.ts)
  }

  /**
   * How an upload ended, the manuscript it submitted (when it got that far), the
   * requests it sent through the session in order, and the `X-Upos-Auth` header it
   * installed (from the multipart init on).
   */
  datatype Sending = Sending(result: Result<Json, Failure>, payload: Option<Json>, sent: seq<Request>, auth: Option<string>)

  /** The session headers after an upload that installed `auth`, if any. */
  function WithAuth(headers: Dict<string>, auth: Option<string>): Dict<string> {
    if auth.Some? then Put(headers, "X-Upos-Auth", auth.value) else headers
  }

  /** Everything after the checks: preupload, init, chunks, completion and submission. */
  function Transferred(m: Manuscript, w: UploadWorld, c: Credential): Sending
    requires |w.preupload| == LineCount
  {
    var params := PreuploadParams(Basename(m.videoPath), w.filesize, UposProfile);
    match FirstAccepted(w.preupload)
    case None =>
      Sending(Err(PreuploadFailed(FailureOf(w.preupload[|w.preupload| - 1]))), None, LineRequests(params, LineCount), None)
    case Some(i) =>
      var rest := Accepted(m, w, c, DictReply(w.preupload[i]).value);
      rest.(sent := LineRequests(params, i + 1) + rest.sent)
  }

  /** After the line that accepted with reply `pre`: its fields, then the rest of the upload. */
  function Accepted(m: Manuscript, w: UploadWorld, c: Credential, pre: Json): Sending
  {
    match PreuploadFields(pre)
    case Err(e) => Sending(Err(e), None, [], None)
    case Ok(f) => Sent(m, w, c, f)
  }

  /** From the multipart init on, with the fields the preupload gave; the init installs the upload credential. */
  function Sent(m: Manuscript, w: UploadWorld, c: Credential, f: Fields): Sending
  {
    var init := DictReply(w.init);
    var initPost := [InitRequest(f.endpoint, f.uposUri)];
    if !(init.Some? && MultipartOk(init.value)) then Sending(Err(InitFailed), None, initPost, Some(f.auth))
    else
      var rest := Uploading(m, w, c, f, Str(Get(init.value, "upload_id")));
      rest.(sent := initPost + rest.sent, auth := Some(f.auth))
  }

  /** The chunks and the completion of the upload `uploadId`, then the submission. */
  function Uploading(m: Manuscript, w: UploadWorld, c: Credential, f: Fields, uploadId: string): Sending
  {
    var t := Target(f.endpoint, UploadPath(f.uposUri), uploadId, w.filesize, f.chunkSize);
    var run := UploadRun(t, f.bizId, Basename(m.videoPath), MaxRetry, w.respond, w.complete);
    if !run.0.Completed? then Sending(Err(ChunksFailed(run.0)), None, run.1, None)
    else
      var sub := Submission(m, w, c, f.uposUri, run.0.reply);
      sub.(sent := run.1 + sub.sent)
  }

  /** The manuscript sent once the file is complete, how its submission ended, and its posts. */
  function Submission(m: Manuscript, w: UploadWorld, c: Credential, uposUri: string, complete: Json): Sending {
    var payload := Payload(m.source, m.title, m.tid, TagText(JoinedTags(NormalTags(m.tag))), m.noReprint,
                           m.desc, m.cover, m.dynamic, m.dtime, Videos(SubmitKey(uposUri, complete), m.title, m.desc));
    var sub := if c.AppToken? then SubmitApp(w.first, w.second) else SubmitWeb(w.first, w.second);
    Sending(if sub.outcome.Submitted? then Ok(sub.outcome.reply) else Err(SubmitFailed(sub.outcome)), Some(payload),
            Repeat(PostRequest(SubmitUrl(c, w), payload), sub.posts), None)
  }

  /**
   * A submission that goes through was answered with code 0, and the manuscript it
   * sent carries the title, the normalized tags and the key of the uploaded file; it
   * is posted once, or twice after a 21015, to the URL of the credential.
   */
  lemma SubmissionSends(m: Manuscript, w: UploadWorld, c: Credential, uposUri: string, complete: Json)
    ensures var sub := Submission(m, w, c, uposUri, complete);
      sub.payload.Some?
      && (sub.result.Ok? ==> EqInt(Get(sub.result.value, "code"), 0))
      && Get(sub.payload.value, "title") == JStr(m.title)
      && Get(sub.payload.value, "tag") == JStr(JoinedTags(NormalTags(m.tag)))
      && Get(sub.payload.value, "videos") == Videos(SubmitKey(uposUri, complete), m.title, m.desc)
    ensures var sub := Submission(m, w, c, uposUri, complete);
      sub.payload.Some? && 1 <= |sub.sent| <= 2
      && forall k :: 0 <= k < |sub.sent| ==> sub.sent[k] == PostRequest(SubmitUrl(c, w), sub.payload.value)
  {
    SubmissionPosts(m, w, c, uposUri, complete);
    var tag := TagText(JoinedTags(NormalTags(m.tag)));
    var videos := Videos(SubmitKey(uposUri, complete), m.title, m.desc);
    PayloadTitle(m.source, m.title, m.tid, tag, m.noReprint, m.desc, m.cover, m.dynamic, m.dtime, videos);
    PayloadTag(m.source, m.title, m.tid, tag, m.noReprint, m.desc, m.cover, m.dynamic, m.dtime, videos);
    PayloadVideos(m.source, m.title, m.tid, tag, m.noReprint, m.desc, m.cover, m.dynamic, m.dtime, videos);
  }

  /** The manuscript is posted once, or twice after a 21015, to the URL of the credential. */
  lemma SubmissionPosts(m: Manuscript, w: UploadWorld, c: Credential, uposUri: string, complete: Json)
    ensures var sub := Submission(m, w, c, uposUri, complete);
      sub.payload.Some? && 1 <= |sub.sent| <= 2
      && forall k :: 0 <= k < |sub.sent| ==> sub.sent[k] == PostRequest(SubmitUrl(c, w), sub.payload.value)
  {
    var run := if c.AppToken? then SubmitApp(w.first, w.second) else SubmitWeb(w.first, w.second);
    assert 1 <= run.posts <= 2;
  }

  /** Whatever the transfer ends with, a manuscript was sent exactly when the file was completed. */
  lemma TransferredSubmits(m: Manuscript, w: UploadWorld, c: Credential)
    requires |w.preupload| == LineCount
    ensures var x := Transferred(m, w, c);
      (x.result.Ok? ==> (x.payload.Some? && EqInt(Get(x.result.value, "code"), 0)
        && Get(x.payload.value, "title") == JStr(m.title)
        && Get(x.payload.value, "tag") == JStr(JoinedTags(NormalTags(m.tag)))))
      && (x.payload.None? <==> x.result.Err? && !x.result.error.SubmitFailed?)
  {
    if FirstAccepted(w.preupload).None? {
      TransferredPreuploadFails(m, w, c);
    } else {
      TransferredFields(m, w, c);
      var fields := PreuploadFields(DictReply(w.preupload[FirstAccepted(w.preupload).value]).value);
      if fields.Ok? {
        SentSubmits(m, w, c, fields.value);
      }
    }
  }

  /** From the multipart init on, a manuscript is sent exactly when the file was completed. */
  lemma SentSubmits(m: Manuscript, w: UploadWorld, c: Credential, f: Fields)
    ensures var x := Sent(m, w, c, f);
      (x.result.Ok? ==> (x.payload.Some? && EqInt(Get(x.result.value, "code"), 0)
        && Get(x.payload.value, "title") == JStr(m.title)
        && Get(x.payload.value, "tag") == JStr(JoinedTags(NormalTags(m.tag)))))
      && (x.payload.None? <==> x.result.Err? && !x.result.error.SubmitFailed?)
  {
    var init := DictReply(w.init);
    if init.Some? && MultipartOk(init.value) {
      SentAfterInit(m, w, c, f);
      UploadingSubmits(m, w, c, f, Str(Get(init.value, "upload_id")));
    }
  }

  lemma UploadingSubmits(m: Manuscript, w: UploadWorld, c: Credential, f: Fields, uploadId: string)
    ensures var x := Uploading(m, w, c, f, uploadId);
      (x.result.Ok? ==> (x.payload.Some? && EqInt(Get(x.result.value, "code"), 0)
        && Get(x.payload.value, "title") == JStr(m.title)
        && Get(x.payload.value, "tag") == JStr(JoinedTags(NormalTags(m.tag)))))
      && (x.payload.None? <==> x.result.Err? && !x.result.error.SubmitFailed?)
  {
    var t := Target(f.endpoint, UploadPath(f.uposUri), uploadId, w.filesize, f.chunkSize);
    var run := UploadRun(t, f.bizId, Basename(m.videoPath), MaxRetry, w.respond, w.complete);
    if run.0.Completed? {
      SubmissionSends(m, w, c, f.uposUri, run.0.reply);
    }
  }

  /**
   * `upload`: no session raises; a login that does not re-check fine raises; a title
   * longer than 80 characters raises; then the transfer runs, on the app endpoint
   * exactly when the pusher holds a truthy access token. A refused upload sends nothing.
   */
  function Uploaded(st: PusherState, hasSession: bool, m: Manuscript, w: UploadWorld): Sending
    requires |w.preupload| == LineCount
  {
    if !hasSession then Sending(Err(NoRequests), None, [], None)
    else
      var c := Recheck(st, w.nav).0;
      if c.Err? then Sending(Err(NetworkError), None, [], None)
      else if !c.value then Sending(Err(NotLoggedIn), None, [], None)
      else if |m.title| > MaxTitleLength then Sending(Err(TitleTooLong), None, [], None)
      else Transferred(m, w, CredentialOf(st))
  }

  /**
   * An upload that succeeds was checked, had a title of at most 80 characters, and
   * the server answered code 0; the manuscript sent carries the title and the
   * normalized tags.
   */
  lemma UploadSucceeds(st: PusherState, m: Manuscript, w: UploadWorld)
    requires |w.preupload| == LineCount
    ensures var u := Uploaded(st, true, m, w);
      u.result.Ok? ==> (Recheck(st, w.nav).0 == Ok(true) && |m.title| <= MaxTitleLength
        && EqInt(Get(u.result.value, "code"), 0) && u.payload.Some?
        && Get(u.payload.value, "tag") == JStr(JoinedTags(NormalTags(m.tag)))
        && Get(u.payload.value, "title") == JStr(m.title))
  {
    TransferredSubmits(m, w, CredentialOf(st));
  }

  /**
   * The pusher's credential reaches the server: when a manuscript was submitted, the
   * last request through the session posts it, and its URL ends in the pusher's CSRF
   * token when there is no truthy access token, or is the app URL whose query opens
   * with the access token (and is signed) when there is.
   */
  lemma UploadCarriesCredential(st: PusherState, m: Manuscript, w: UploadWorld)
    requires |w.preupload| == LineCount
    ensures var u := Uploaded(st, true, m, w);
      u.payload.Some? ==> u.sent != [] && u.sent[|u.sent| - 1] == PostRequest(SubmitUrl(CredentialOf(st), w), u.payload.value)
    ensures var u := Uploaded(st, true, m, w);
      u.payload.Some? && !(st.accessToken.Some? && Truthy(st.accessToken.value)) ==>
        EndsWith(u.sent[|u.sent| - 1].url, "&csrf=" + (if st.csrf.Some? then st.csrf.value else "None"))
    ensures var u := Uploaded(st, true, m, w);
      u.payload.Some? && st.accessToken.Some? && Truthy(st.accessToken.value) ==>
        u.sent[|u.sent| - 1].url == AppSubmitUrl(w.md5, Str(st.accessToken.value), w.ts)
        && Split(AppQuery(Str(st.accessToken.value), w.ts), '&')[0] == "access_key" + "=" + QuotePlus(Str(st.accessToken.value))
  {
    var c := CredentialOf(st);
    UploadedSubmitting(st, m, w);
    TransferredLastPost(m, w, c);
    match c {
      case WebCsrf(csrf) => WebUrlCarriesCsrf(w.tMs, csrf);
      case AppToken(token) => AppUrlCarriesToken(token, w.ts);
    }
  }

  /** An upload that got as far as a manuscript is the transfer with the pusher's credential. */
  lemma UploadedSubmitting(st: PusherState, m: Manuscript, w: UploadWorld)
    requires |w.preupload| == LineCount
    ensures Uploaded(st, true, m, w).payload.Some? ==> Uploaded(st, true, m, w) == Transferred(m, w, CredentialOf(st))
  {
  }

  /** When the transfer submitted a manuscript, its last request is a post of that manuscript to the credential's URL. */
  lemma TransferredLastPost(m: Manuscript, w: UploadWorld, c: Credential)
    requires |w.preupload| == LineCount
    ensures var x := Transferred(m, w, c);
      x.payload.Some? ==> x.sent != [] && x.sent[|x.sent| - 1] == PostRequest(SubmitUrl(c, w), x.payload.value)
  {
    if FirstAccepted(w.preupload).Some? {
      TransferredFields(m, w, c);
      var fields := PreuploadFields(DictReply(w.preupload[FirstAccepted(w.preupload).value]).value);
      if fields.Ok? {
        SentLastPost(m, w, c, fields.value);
      }
    } else {
      TransferredPreuploadFails(m, w, c);
    }
  }

  lemma SentLastPost(m: Manuscript, w: UploadWorld, c: Credential, f: Fields)
    ensures var x := Sent(m, w, c, f);
      x.payload.Some? ==> x.sent != [] && x.sent[|x.sent| - 1] == PostRequest(SubmitUrl(c, w), x.payload.value)
  {
    var init := DictReply(w.init);
    if init.Some? && MultipartOk(init.value) {
      var id := Str(Get(init.value, "upload_id"));
      SentAfterInit(m, w, c, f);
      UploadingLastPost(m, w, c, f, id);
      if Uploading(m, w, c, f, id).payload.Some? {
        LastOfAppend([InitRequest(f.endpoint, f.uposUri)], Uploading(m, w, c, f, id).sent);
      }
    }
  }

  lemma UploadingLastPost(m: Manuscript, w: UploadWorld, c: Credential, f: Fields, uploadId: string)
    ensures var x := Uploading(m, w, c, f, uploadId);
      x.payload.Some? ==> x.sent != [] && x.sent[|x.sent| - 1] == PostRequest(SubmitUrl(c, w), x.payload.value)
  {
    var t := Target(f.endpoint, UploadPath(f.uposUri), uploadId, w.filesize, f.chunkSize);
    var run := UploadRun(t, f.bizId, Basename(m.videoPath), MaxRetry, w.respond, w.complete);
    if run.0.Completed? {
      var sub := Submission(m, w, c, f.uposUri, run.0.reply);
      SubmissionPosts(m, w, c, f.uposUri, run.0.reply);
      LastOfAppend(run.1, sub.sent);
    }
  }

  /** The last element of a concatenation with a non-empty end is the end's last element. */
  lemma LastOfAppend<T>(a: seq<T>, b: seq<T>)
    requires b != []
    ensures (a + b)[|a + b| - 1] == b[|b| - 1]
  {
  }

  /** An expired access token is reported only on the app endpoint, which a truthy access token selects. */
  lemma TokenExpiryOnlyOnApp(st: PusherState, m: Manuscript, w: UploadWorld)
    requires |w.preupload| == LineCount
    ensures Uploaded(st, true, m, w).result == Err(SubmitFailed(TokenExpired)) ==>
      st.accessToken.Some? && Truthy(st.accessToken.value) && TokenCode(w.first)
  {
    var c := CredentialOf(st);
    if Recheck(st, w.nav).0 == Ok(true) && |m.title| <= MaxTitleLength {
      assert Uploaded(st, true, m, w) == Transferred(m, w, c);
      TransferredTokenExpired(m, w, c);
    }
  }

  lemma TransferredTokenExpired(m: Manuscript, w: UploadWorld, c: Credential)
    requires |w.preupload| == LineCount
    ensures Transferred(m, w, c).result == Err(SubmitFailed(TokenExpired)) ==> c.AppToken? && TokenCode(w.first)
  {
    if FirstAccepted(w.preupload).None? {
      TransferredPreuploadFails(m, w, c);
    } else {
      TransferredFields(m, w, c);
      var fields := PreuploadFields(DictReply(w.preupload[FirstAccepted(w.preupload).value]).value);
      if fields.Ok? {
        SentTokenExpired(m, w, c, fields.value);
      }
    }
  }

  lemma SentTokenExpired(m: Manuscript, w: UploadWorld, c: Credential, f: Fields)
    ensures Sent(m, w, c, f).result == Err(SubmitFailed(TokenExpired)) ==> c.AppToken? && TokenCode(w.first)
  {
    var init := DictReply(w.init);
    if init.Some? && MultipartOk(init.value) {
      SentAfterInit(m, w, c, f);
      UploadingTokenExpired(m, w, c, f, Str(Get(init.value, "upload_id")));
    }
  }

  lemma UploadingTokenExpired(m: Manuscript, w: UploadWorld, c: Credential, f: Fields, uploadId: string)
    ensures Uploading(m, w, c, f, uploadId).result == Err(SubmitFailed(TokenExpired)) ==> c.AppToken? && TokenCode(w.first)
  {
    var t := Target(f.endpoint, UploadPath(f.uposUri), uploadId, w.filesize, f.chunkSize);
    var run := UploadRun(t, f.bizId, Basename(m.videoPath), MaxRetry, w.respond, w.complete);
    if run.0.Completed? {
      assert Uploading(m, w, c, f, uploadId).result == Submission(m, w, c, f.uposUri, run.0.reply).result;
    }
  }

  /** A title over the limit is refused after the login check and before any upload request. */
  lemma LongTitleRefused(st: PusherState, m: Manuscript, w: UploadWorld)
    requires |w.preupload| == LineCount
    requires |m.title| > MaxTitleLength
    ensures Uploaded(st, true, m, w).result == (match Recheck(st, w.nav).0
      case Ok(true) => Err(TitleTooLong)
      case Ok(false) => Err(NotLoggedIn)
      case Err(_) => Err(NetworkError))
    ensures Uploaded(st, true, m, w).payload.None? && Uploaded(st, true, m, w).sent == []
  {
  }

  /**
   * The transfer through the session: every request of the specification is sent in
   * order, the upload credential is installed from the init on, and the cookies are
   * never touched.
   */
  method Transfer(s: Session, m: Manuscript, w: UploadWorld, c: Credential) returns (r: Result<Json, Failure>, payload: Option<Json>)
    requires |w.preupload| == LineCount
    modifies s`headers, s`sent
    ensures var x := Transferred(m, w, c);
      r == x.result && payload == x.payload && s.sent == old(s.sent) + x.sent
      && s.headers == WithAuth(old(s.headers), x.auth)
    ensures s.cookies == old(s.cookies)
  {
    var pre := Preupload(s, m.videoPath, w.filesize, None, w.preupload);
    if pre.Err? {
      TransferredPreuploadFails(m, w, c);
      return Err(PreuploadFailed(pre.error)), None;
    }
    ghost var asked := LineRequests(PreuploadParams(Basename(m.videoPath), w.filesize, UposProfile), FirstAccepted(w.preupload).value + 1);
    assert s.sent == old(s.sent) + asked;
    ghost var rest := Accepted(m, w, c, DictReply(w.preupload[FirstAccepted(w.preupload).value]).value);
    assert pre.value == DictReply(w.preupload[FirstAccepted(w.preupload).value]).value;
    r, payload := SendFields(s, m, w, c, pre.value);
    TransferredAccepted(m, w, c);
    AppendAssoc(old(s.sent), asked, rest.sent);
  }

  /** The fields of the accepted preupload reply, then the rest of the upload through the session. */
  method SendFields(s: Session, m: Manuscript, w: UploadWorld, c: Credential, pre: Json) returns (r: Result<Json, Failure>, payload: Option<Json>)
    modifies s`headers, s`sent
    ensures var x := Accepted(m, w, c, pre);
      r == x.result && payload == x.payload && s.sent == old(s.sent) + x.sent
      && s.headers == WithAuth(old(s.headers), x.auth)
    ensures s.cookies == old(s.cookies)
  {
    var fields := PreuploadFields(pre);
    if fields.Err? {
      return Err(fields.error), None;
    }
    r, payload := Send(s, m, w, c, fields.value);
  }

  /** Every line refused: the transfer fails with the last line's error after asking all four. */
  lemma TransferredPreuploadFails(m: Manuscript, w: UploadWorld, c: Credential)
    requires |w.preupload| == LineCount && FirstAccepted(w.preupload).None?
    ensures Transferred(m, w, c) == Sending(Err(PreuploadFailed(FailureOf(w.preupload[|w.preupload| - 1]))), None,
      LineRequests(PreuploadParams(Basename(m.videoPath), w.filesize, UposProfile), LineCount), None)
  {
  }

  /** A line accepted: the transfer goes on as `Accepted` with its reply, behind the lines asked. */
  lemma TransferredAccepted(m: Manuscript, w: UploadWorld, c: Credential)
    requires |w.preupload| == LineCount && FirstAccepted(w.preupload).Some?
    ensures var i := FirstAccepted(w.preupload).value;
      var rest := Accepted(m, w, c, DictReply(w.preupload[i]).value);
      Transferred(m, w, c) == Sending(rest.result, rest.payload,
        LineRequests(PreuploadParams(Basename(m.videoPath), w.filesize, UposProfile), i + 1) + rest.sent, rest.auth)
  {
  }

  /** A line accepted: the transfer goes on with the fields its reply gives, or fails with their error. */
  lemma TransferredFields(m: Manuscript, w: UploadWorld, c: Credential)
    requires |w.preupload| == LineCount && FirstAccepted(w.preupload).Some?
    ensures var i := FirstAccepted(w.preupload).value;
      var fields := PreuploadFields(DictReply(w.preupload[i]).value);
      var asked := LineRequests(PreuploadParams(Basename(m.videoPath), w.filesize, UposProfile), i + 1);
      Transferred(m, w, c) == if fields.Ok? then Sent(m, w, c, fields.value).(sent := asked + Sent(m, w, c, fields.value).sent)
                              else Sending(Err(fields.error), None, asked, None)
  {
  }

  /**
   * The multipart init through the session, which installs the upload credential,
   * then the rest of the upload: the requests of the specification, in order.
   */
  method Send(s: Session, m: Manuscript, w: UploadWorld, c: Credential, f: Fields) returns (r: Result<Json, Failure>, payload: Option<Json>)
    modifies s`headers, s`sent
    ensures var x := Sent(m, w, c, f);
      r == x.result && payload == x.payload && s.sent == old(s.sent) + x.sent
      && s.headers == Put(old(s.headers), "X-Upos-Auth", f.auth) && x.auth == Some(f.auth)
    ensures s.cookies == old(s.cookies)
  {
    var uploadId := InitMultipart(s, f.endpoint, f.uposUri, f.auth, w.init);
    if uploadId.None? {
      return Err(InitFailed), None;
    }
    r, payload := UploadAndSubmit(s, m, w, c, f, Str(uploadId.value));
    SentAfterInit(m, w, c, f);
    AppendAssoc(old(s.sent), [InitRequest(f.endpoint, f.uposUri)], Uploading(m, w, c, f, Str(uploadId.value)).sent);
  }

  /** After an accepted init, the upload goes on as `Uploading`, behind the init request and with the credential installed. */
  lemma SentAfterInit(m: Manuscript, w: UploadWorld, c: Credential, f: Fields)
    requires DictReply(w.init).Some? && MultipartOk(DictReply(w.init).value)
    ensures var rest := Uploading(m, w, c, f, Str(Get(DictReply(w.init).value, "upload_id")));
      Sent(m, w, c, f) == Sending(rest.result, rest.payload, [InitRequest(f.endpoint, f.uposUri)] + rest.sent, Some(f.auth))
  {
  }

  lemma AppendAssoc<T>(a: seq<T>, b: seq<T>, c: seq<T>)
    ensures a + b + c == a + (b + c)
  {
  }

  /** The chunks and the completion through the session, then the submission posts to the credential's URL. */
  method UploadAndSubmit(s: Session, m: Manuscript, w: UploadWorld, c: Credential, f: Fields, uploadId: string)
    returns (r: Result<Json, Failure>, payload: Option<Json>)
    modifies s`sent
    ensures var x := Uploading(m, w, c, f, uploadId);
      r == x.result && payload == x.payload && s.sent == old(s.sent) + x.sent
    ensures s.headers == old(s.headers) && s.cookies == old(s.cookies)
  {
    var t := Target(f.endpoint, UploadPath(f.uposUri), uploadId, w.filesize, f.chunkSize);
    var outcome, sleeps := UploadChunks(s, t, f.bizId, Basename(m.videoPath), MaxRetry, w.respond, w.complete);
    if !outcome.Completed? {
      return Err(ChunksFailed(outcome)), None;
    }
    r, payload := Submit(s, m, w, c, f.uposUri, outcome.reply);
    AppendAssoc(old(s.sent), UploadRun(t, f.bizId, Basename(m.videoPath), MaxRetry, w.respond, w.complete).1,
                Submission(m, w, c, f.uposUri, outcome.reply).sent);
  }

  /** The manuscript built and posted through the session to the credential's URL, as the specification says. */
  method Submit(s: Session, m: Manuscript, w: UploadWorld, c: Credential, uposUri: string, complete: Json)
    returns (r: Result<Json, Failure>, payload: Option<Json>)
    modifies s`sent
    ensures var x := Submission(m, w, c, uposUri, complete);
      r == x.result && payload == x.payload && s.sent == old(s.sent) + x.sent
    ensures s.headers == old(s.headers) && s.cookies == old(s.cookies)
  {
    var manuscript := Payload(m.source, m.title, m.tid, TagText(JoinedTags(NormalTags(m.tag))), m.noReprint,
                              m.desc, m.cover, m.dynamic, m.dtime, Videos(SubmitKey(uposUri, complete), m.title, m.desc));
    var sub;
    match c {
      case AppToken(token) =>
        sub := SubmitAddByApp(s, w.md5, token, w.ts, manuscript, w.first, w.second);
      case WebCsrf(csrf) =>
        sub := SubmitAdd(s, csrf, w.tMs, manuscript, w.first, w.second);
    }
    r := if sub.outcome.Submitted? then Ok(sub.outcome.reply) else Err(SubmitFailed(sub.outcome));
    payload := Some(manuscript);
  }

  // ------------------------------------------------------- the pusher

  class Pusher {
    var session: Session?
    var cookiePath: string
    var cookieDict: Option<CookieDict>
    var csrf: Option<string>
    var mid: Option<string>
    var loggedIn: bool
    var accessToken: Option<Json>

    function State(): PusherState
      reads this
    {
      PusherState(cookiePath, cookieDict, csrf, mid, loggedIn, accessToken)
    }

    /** The field setup of `__init__`: an empty cookie path means `cookie.json`. */
    constructor (session: Session?, cookiePath: string, cookieDict: Option<CookieDict>)
      ensures this.session == session
      ensures State() == PusherState(if cookiePath != "" then cookiePath else DefaultCookiePath,
                                     cookieDict, None, None, false, None)
    {
      this.session := session;
      this.cookiePath := if cookiePath != "" then cookiePath else DefaultCookiePath;
      this.cookieDict := cookieDict;
      csrf := None;
      mid := None;
      loggedIn := false;
      accessToken := None;
    }

    /** `_apply_cookie`: the session's jar is replaced by the cookie dict and the page headers are added. */
    method ApplyCookie()
      modifies session
      ensures session != null && HasCookies(cookieDict) ==>
        session.cookies == FromPairs(cookieDict.value)
        && session.headers == Update(old(session.headers), PageHeaders)
        && session.sent == old(session.sent)
      ensures session != null && !HasCookies(cookieDict) ==> unchanged(session)
    {
      if session == null || !HasCookies(cookieDict) {
        return;
      }
      var d := cookieDict.value;
      session.cookies := [];
      for i := 0 to |d|
        invariant session.cookies == FromPairs(d[..i])
        invariant session.headers == old(session.headers) && session.sent == old(session.sent)
      {
        FromPairsSnoc(d[..i], d[i].0, d[i].1);
        assert d[..i + 1] == d[..i] + [(d[i].0, d[i].1)];
        session.cookies := Put(session.cookies, d[i].0, d[i].1);
      }
      assert d[..|d|] == d;
      session.headers := Update(session.headers, PageHeaders);
    }

    /** Assigns one login result, applying the cookies when it holds a truthy dict. */
    method AdoptLogin(r: Result<Login, Check>)
      requires !r.Err? || r.error != CheckRaised
      modifies this, session
      ensures session == old(session)
      ensures State() == Adopt(old(State()), r).state
      ensures Adopt(old(State()), r).applied && session != null ==>
        cookieDict.Some? && session.cookies == FromPairs(cookieDict.value)
        && session.headers == Update(old(session.headers), PageHeaders)
      ensures !Adopt(old(State()), r).applied && session != null ==> unchanged(session)
      ensures session != null ==> session.sent == old(session.sent)
    {
      match r {
        case Ok(l) =>
          cookieDict, csrf, mid := Some(l.cookies), Some(l.csrf), l.mid;
          if l.cookies != [] {
            ApplyCookie();
            loggedIn := true;
          }
        case Err(_) =>
          cookieDict, csrf, mid := None, None, None;
      }
    }

    /**
     * The end of `__init__`, restoring a login. `file` is the content of the cookie
     * path when it names a file, `decoded` its JSON; `raised` tells that the account
     * check escaped, which aborts the construction.
     */
    method Restore(file: Option<string>, decoded: Option<Json>, nav: Exchange) returns (raised: bool)
      modifies this, session
      ensures session == old(session)
      ensures var r := Restored(old(State()), file, decoded, nav);
        raised == r.raised && (!raised ==> State() == r.state)
        && (r.applied && session != null ==>
              cookieDict.Some? && session.cookies == FromPairs(cookieDict.value)
              && session.headers == Update(old(session.headers), PageHeaders))
        && (!r.applied && session != null ==> unchanged(session))
      ensures session != null ==> session.sent == old(session.sent)
    {
      if HasCookies(cookieDict) {
        var login := LoginWithCookie(cookieDict.value, nav);
        if login.Err? && login.error == CheckRaised {
          return true;
        }
        AdoptLogin(login);
        return false;
      }
      if cookiePath == "" || file.None? {
        return false;
      }
      var loaded, tokenInfo := LoadCookieFromFile(cookiePath, file, decoded);
      raised := AdoptLoaded(loaded, tokenInfo, nav);
    }

    /** The cookie-file branch of `__init__` once the file was read. */
    method AdoptLoaded(loaded: Option<CookieDict>, tokenInfo: Option<Json>, nav: Exchange) returns (raised: bool)
      modifies this, session
      ensures session == old(session)
      ensures var r := FromLoaded(old(State()), (loaded, tokenInfo), nav);
        raised == r.raised && (!raised ==> State() == r.state)
        && (r.applied && session != null ==>
              cookieDict.Some? && session.cookies == FromPairs(cookieDict.value)
              && session.headers == Update(old(session.headers), PageHeaders))
        && (!r.applied && session != null ==> unchanged(session))
      ensures session != null ==> session.sent == old(session.sent)
    {
      if !HasCookies(loaded) {
        return false;
      }
      var login := LoginWithCookie(loaded.value, nav);
      if login.Err? && login.error == CheckRaised {
        return true;
      }
      AdoptLogin(login);
      if tokenInfo.Some? && Truthy(tokenInfo.value) && Truthy(Get(tokenInfo.value, "access_token")) {
        accessToken := Some(Get(tokenInfo.value, "access_token"));
      }
      return false;
    }

    /** `is_logged_in`. The account check goes out directly, not through the session. */
    method IsLoggedIn(nav: Exchange) returns (r: Result<bool, Failure>)
      modifies this
      ensures session == old(session)
      ensures (r, State()) == Recheck(old(State()), nav)
    {
      if !loggedIn || !HasCookies(cookieDict) {
        return Ok(false);
      }
      match CheckCookie(cookieDict.value, nav) {
        case Valid(_) => r := Ok(true);
        case Invalid =>
          loggedIn := false;
          r := Ok(false);
        case CheckRaised => r := Err(NetworkError);
      }
    }

    /**
     * `login`. The QR login saves to the cookie path (the save path is always set) and
     * its session requests are appended to the session's record.
     */
    method Login(useQrcode: bool, nav: Exchange, gen: Exchange, ps: seq<PollReplies>) returns (r: Result<bool, Failure>)
      requires |ps| == MaxPolls
      modifies this, session
      ensures session == old(session)
      ensures (r, State()) == LoginSpec(old(State()), old(session) != null, useQrcode, nav, gen, ps)
      ensures session != null && useQrcode && Recheck(old(State()), nav).0 == Ok(false) ==>
        session.sent == old(session.sent) + QrLogin(gen, ps, true).sent
      ensures loggedIn && !Recheck(old(State()), nav).1.loggedIn ==>
        session != null && cookieDict.Some? && session.cookies == FromPairs(cookieDict.value)
        && session.headers == Update(old(session.headers), PageHeaders)
    {
      ghost var st := State();
      var checked := IsLoggedIn(nav);
      ghost var st1 := Recheck(st, nav).1;
      assert checked == Recheck(st, nav).0 && State() == st1;
      if checked.Err? || checked.value || !(useQrcode && session != null) {
        return checked;
      }
      var outcome, saved, polls := LoginWithQrcode(session, gen, ps, true);
      assert outcome == QrLogin(gen, ps, true).outcome;
      if outcome.QrRaised? {
        return Err(NetworkError);
      }
      r := AdoptQrLogin(outcome);
    }

    /** The four results of the QR login assigned, and the cookies applied when they form a truthy dict. */
    method AdoptQrLogin(o: QrOutcome) returns (r: Result<bool, Failure>)
      requires session != null
      modifies this, session
      ensures session == old(session)
      ensures var st2 := QrAdopt(old(State()), o);
        (r, State()) == (if HasCookies(st2.cookieDict) then (Ok(true), st2.(loggedIn := true)) else (Ok(false), st2))
      ensures r == Ok(true) ==>
        (cookieDict.Some? && session.cookies == FromPairs(cookieDict.value) && session.headers == Update(old(session.headers), PageHeaders))
      ensures session.sent == old(session.sent)
    {
      if !o.QrFinished? {
        cookieDict, csrf, mid, accessToken := None, None, None, None;
      } else if o.login.None? {
        cookieDict, csrf, mid, accessToken := None, None, None, o.accessToken;
      } else {
        var l := o.login.value;
        cookieDict, csrf, mid, accessToken := Some(l.cookies), Some(l.csrf), l.mid, o.accessToken;
      }
      if HasCookies(cookieDict) {
        ApplyCookie();
        loggedIn := true;
        return Ok(true);
      }
      return Ok(false);
    }

    /**
     * `upload`: the manuscript `payload` is what was submitted, when the upload got that
     * far; the session records the requests of the specification and holds the upload
     * credential from the init on. Nothing but the logged-in flag of the pusher changes.
     */
    method Upload(m: Manuscript, w: UploadWorld) returns (r: Result<Json, Failure>, payload: Option<Json>)
      requires |w.preupload| == LineCount
      modifies this, session
      ensures session == old(session)
      ensures var u := Uploaded(old(State()), old(session) != null, m, w);
        r == u.result && payload == u.payload
        && (session != null ==> session.sent == old(session.sent) + u.sent
                                && session.headers == WithAuth(old(session.headers), u.auth))
      ensures State() == (if session == null then old(State()) else Recheck(old(State()), w.nav).1)
      ensures session != null ==> session.cookies == old(session.cookies)
      ensures session != null && (Recheck(old(State()), w.nav).0 != Ok(true) || |m.title| > MaxTitleLength) ==>
        unchanged(session)
    {
      if session == null {
        return Err(NoRequests), None;
      }
      ghost var st := State();
      var checked := IsLoggedIn(w.nav);
      assert checked == Recheck(st, w.nav).0 && accessToken == st.accessToken && csrf == st.csrf;
      if checked.Err? {
        return Err(NetworkError), None;
      }
      if !checked.value {
        return Err(NotLoggedIn), None;
      }
      if |m.title| > MaxTitleLength {
        return Err(TitleTooLong), None;
      }
      var c := if accessToken.Some? && Truthy(accessToken.value) then AppToken(Str(accessToken.value))
               else WebCsrf(if csrf.Some? then csrf.value else "None");
      assert c == CredentialOf(st);
      assert Uploaded(st, true, m, w) == Transferred(m, w, c);
      r, payload := Transfer(session, m, w, c);
    }
  }
}
