/**
 * The POST endpoint `/push/playwright_bilibili`: validate the request body,
 * merge the listed videos into one, publish it with the browser publisher
 * (retrying), and map the last result to a response code: 0 when the audit
 * decided (passed or rejected), -100 for a bad request or a failed merge,
 * -200 for everything else.
 */
module ApiPush {
  import opened Base
  import opened Text
  import opened PyJson
  import opened PathOps
  import opened BrowserUpload

  const MissingVideosMsg := "缺少参数 videos（mp4 路径或 URL 数组）"
  const EmptyVideosMsg := "videos 不能为空"
  const MergeFailedPrefix := "合并失败: "

  /** The one item of `data`: `_make_data_item` (its `duration_sec` is not modelled). */
  datatype DataItem = DataItem(
    auditStatus: string, dedeUserId: string, videoName: string, errorReason: string,
    gindex: Json, guid: Json, version: Json)

  /**
   * The JSON answer: `code`, `data` (None for `null`) and `msg` when the answer
   * carries one; `InternalError` when the handler raised, which Flask answers
   * with status 500.
   */
  datatype Response = Reply(code: int, data: Option<DataItem>, msg: Option<string>) | InternalError

  // ------------------------------------------------------- the video list

  /** The entries of `videos` as stripped strings, blanks dropped, in order. */
  function RequestPaths(videos: seq<Json>): (r: seq<string>)
    ensures |r| <= |videos|
    ensures forall i :: 0 <= i < |r| ==> r[i] != "" && Trimmed(r[i])
  {
    if videos == [] then []
    else
      var p := Strip(Str(videos[|videos| - 1]));
      RequestPaths(videos[..|videos| - 1]) + (if p != "" then [p] else [])
  }

  /** The loop that builds `paths`. */
  method CollectPaths(videos: seq<Json>) returns (paths: seq<string>)
    ensures paths == RequestPaths(videos)
  {
    paths := [];
    for k := 0 to |videos|
      invariant paths == RequestPaths(videos[..k])
    {
      assert videos[..k + 1][..k] == videos[..k];
      var p := Strip(Str(videos[k]));
      if p != "" {
        paths := paths + [p];
      }
    }
    assert videos[..|videos|] == videos;
  }

  /** The list is empty exactly when every entry strips to nothing. */
  lemma RequestPathsEmpty(videos: seq<Json>)
    ensures RequestPaths(videos) == [] <==> forall i :: 0 <= i < |videos| ==> Strip(Str(videos[i])) == ""
  {
    if RequestPaths(videos) == [] {
      EmptyPathsAllBlank(videos);
    }
    if forall i :: 0 <= i < |videos| ==> Strip(Str(videos[i])) == "" {
      AllBlankEmptyPaths(videos);
    }
  }

  lemma EmptyPathsAllBlank(videos: seq<Json>)
    requires RequestPaths(videos) == []
    ensures forall i :: 0 <= i < |videos| ==> Strip(Str(videos[i])) == ""
  {
    forall i | 0 <= i < |videos|
      ensures Strip(Str(videos[i])) == ""
    {
      if Strip(Str(videos[i])) != "" {
        NonBlankGivesPath(videos, i);
      }
    }
  }

  /** One entry that does not strip to nothing puts a path in the list. */
  lemma {:induction false} NonBlankGivesPath(videos: seq<Json>, i: nat)
    requires i < |videos| && Strip(Str(videos[i])) != ""
    ensures RequestPaths(videos) != []
  {
    var n := |videos| - 1;
    if i < n {
      var init := videos[..n];
      assert init[i] == videos[i];
      NonBlankGivesPath(init, i);
      PathsGrow(videos);
    } else {
      LastGivesPath(videos);
    }
  }

  lemma PathsGrow(videos: seq<Json>)
    requires videos != [] && RequestPaths(videos[..|videos| - 1]) != []
    ensures RequestPaths(videos) != []
  {
    var p := Strip(Str(videos[|videos| - 1]));
    assert |RequestPaths(videos)| == |RequestPaths(videos[..|videos| - 1])| + (if p != "" then 1 else 0);
  }

  lemma LastGivesPath(videos: seq<Json>)
    requires videos != [] && Strip(Str(videos[|videos| - 1])) != ""
    ensures RequestPaths(videos) != []
  {
    var p := Strip(Str(videos[|videos| - 1]));
    assert RequestPaths(videos) == RequestPaths(videos[..|videos| - 1]) + [p];
  }

  lemma {:induction false} AllBlankEmptyPaths(videos: seq<Json>)
    requires forall i :: 0 <= i < |videos| ==> Strip(Str(videos[i])) == ""
    ensures RequestPaths(videos) == []
  {
    if videos != [] {
      var n := |videos| - 1;
      var init := videos[..n];
      forall i | 0 <= i < |init|
        ensures Strip(Str(init[i])) == ""
      {
        assert init[i] == videos[i];
      }
      AllBlankEmptyPaths(init);
      assert Strip(Str(videos[n])) == "";
    }
  }

  /** Entries that are already non-blank stripped strings are passed on as they are, in order. */
  lemma {:induction false} RequestPathsOfNames(videos: seq<Json>, names: seq<string>)
    requires |videos| == |names|
    requires forall i :: 0 <= i < |names| ==> videos[i] == JStr(names[i]) && names[i] != "" && Trimmed(names[i])
    ensures RequestPaths(videos) == names
  {
    if videos != [] {
      var n := |videos| - 1;
      RequestPathsOfNames(videos[..n], names[..n]);
      StripOfTrimmed(names[n]);
      assert names[..n] + [names[n]] == names;
    }
  }

  // ------------------------------------------------------- the retry count

  /** Python `int(s)` for a string: optional sign and decimal digits, with surrounding whitespace; None when it raises. */
  function IntOfText(s: string): (r: Option<int>)
    ensures r.Some? ==> Strip(s) != ""
  {
    var t := Strip(s);
    if t == "" then None
    else
      var digits := if t[0] == '-' || t[0] == '+' then t[1..] else t;
      if digits != [] && forall i :: 0 <= i < |digits| ==> IsDigit(digits[i]) then
        Some(if t[0] == '-' then 0 - (DigitsValue(digits) as int) else DigitsValue(digits) as int)
      else None
  }

  /** Reading back how Python prints an integer gives the integer. */
  lemma IntOfTextRoundTrip(n: int)
    ensures IntOfText(IntToString(n)) == Some(n)
  {
    if n < 0 {
      NegativeRoundTrip(n);
    } else {
      DigitsValueOfNatToString(n);
      DigitsText(NatToString(n));
    }
  }

  lemma NegativeRoundTrip(n: int)
    requires n < 0
    ensures IntOfText(IntToString(n)) == Some(n)
  {
    var s := IntToString(n);
    var d := NatToString(-n);
    DigitsValueOfNatToString(-n);
    assert s[1..] == d;
    assert DigitsValue(s[1..]) == -n;
    SignedDigitsText(s);
    assert IntOfText(s) == Some(n);
  }

  /** A non-empty run of digits reads as its value. */
  lemma DigitsText(d: string)
    requires d != [] && forall i :: 0 <= i < |d| ==> IsDigit(d[i])
    ensures IntOfText(d) == Some(DigitsValue(d) as int)
  {
    assert !IsSpace(d[0]) && !IsSpace(d[|d| - 1]);
    StripOfTrimmed(d);
  }

  /** A minus sign before a non-empty run of digits reads as the negated value. */
  lemma SignedDigitsText(s: string)
    requires |s| >= 2 && s[0] == '-' && forall i :: 1 <= i < |s| ==> IsDigit(s[i])
    ensures IntOfText(s) == Some(0 - DigitsValue(s[1..]) as int)
  {
    assert !IsSpace(s[|s| - 1]);
    StripOfTrimmed(s);
  }

  /** Python `int(j)`: integers, booleans and numeric strings convert; anything else raises (None). */
  function IntOf(j: Json): (r: Option<int>)
    ensures j.JInt? ==> r == Some(j.i)
    ensures j.JNull? || j.JList? || j.JObj? ==> r.None?
  {
    match j
    case JInt(i) => Some(i)
    case JBool(b) => Some(if b then 1 else 0)
    case JStr(s) => IntOfText(s)
    case _ => None
  }

  /** The retry count after `int(body.get("retry", 1))` and the reset of a negative count to 1. */
  function RetryCount(body: Json): (r: Option<nat>)
    ensures !HasKey(body, "retry") ==> r == Some(1)
    ensures r.Some? ==> IntOf(GetDefault(body, "retry", JInt(1))).Some?
  {
    match IntOf(GetDefault(body, "retry", JInt(1)))
    case None => None
    case Some(n) => Some(if n < 0 then 1 else n)
  }

  /** `max(1, retry + 1)`. */
  function MaxAttempts(retry: int): (n: nat)
    ensures n >= 1 && n >= retry + 1
  {
    if retry + 1 > 1 then retry + 1 else 1
  }

  /** A count left as given means one more attempt than retries; a negative one means two attempts. */
  lemma AttemptsOfRetry(body: Json)
    requires RetryCount(body).Some?
    ensures var n := IntOf(GetDefault(body, "retry", JInt(1))).value;
      MaxAttempts(RetryCount(body).value) == if n < 0 then 2 else n + 1
  {
  }

  // ------------------------------------------------------- the attempt loop

  /** Where the attempt loop stands: the last result (None after an exception) and the last exception's text. */
  datatype Attempts = Attempts(lastResult: Option<UploadResult>, lastError: Option<string>)

  /** The attempts from the `i`-th on; `run(i)` is what the `i`-th call of the publisher returned or raised. */
  function AttemptFrom(run: nat -> Result<UploadResult, string>, i: nat, n: nat, st: Attempts): (r: Attempts)
    requires i <= n
    ensures i < n ==> (r.lastResult.Some? <==> r.lastError.None?)
    decreases n - i
  {
    if i == n then st
    else match run(i)
      case Ok(res) =>
        if res.success then Attempts(Some(res), None)
        else AttemptFrom(run, i + 1, n, Attempts(Some(res), None))
      case Err(e) => AttemptFrom(run, i + 1, n, Attempts(None, Some(e)))
  }

  /** The state after the attempt loop. */
  function AttemptLoop(run: nat -> Result<UploadResult, string>, n: nat): Attempts {
    AttemptFrom(run, 0, n, Attempts(None, None))
  }

  /** The `for attempt in range(max_attempts)` loop. */
  method RunAttempts(run: nat -> Result<UploadResult, string>, n: nat) returns (r: Attempts)
    ensures r == AttemptLoop(run, n)
  {
    var lastResult: Option<UploadResult> := None;
    var lastError: Option<string> := None;
    for attempt := 0 to n
      invariant AttemptFrom(run, attempt, n, Attempts(lastResult, lastError)) == AttemptLoop(run, n)
    {
      match run(attempt) {
        case Ok(res) =>
          lastResult := Some(res);
          lastError := None;
          if res.success {
            return Attempts(lastResult, lastError);
          }
        case Err(e) =>
          lastError := Some(e);
          lastResult := None;
      }
    }
    return Attempts(lastResult, lastError);
  }

  /** The first successful attempt ends the loop with its result. */
  lemma {:induction false} FirstSuccessStops(run: nat -> Result<UploadResult, string>, n: nat, k: nat)
    requires k < n && run(k).Ok? && run(k).value.success
    requires forall j :: 0 <= j < k ==> !(run(j).Ok? && run(j).value.success)
    ensures AttemptLoop(run, n) == Attempts(Some(run(k).value), None)
  {
    SuccessFrom(run, n, k, 0, Attempts(None, None));
  }

  lemma {:induction false} SuccessFrom(run: nat -> Result<UploadResult, string>, n: nat, k: nat, i: nat, st: Attempts)
    requires i <= k < n && run(k).Ok? && run(k).value.success
    requires forall j :: i <= j < k ==> !(run(j).Ok? && run(j).value.success)
    ensures AttemptFrom(run, i, n, st) == Attempts(Some(run(k).value), None)
    decreases k - i
  {
    if i < k {
      var next := match run(i) case Ok(res) => Attempts(Some(res), None) case Err(e) => Attempts(None, Some(e));
      SuccessFrom(run, n, k, i + 1, next);
    }
  }

  /** Without a success every attempt is made, and the last one alone decides what is reported. */
  lemma {:induction false} NoSuccessKeepsLast(run: nat -> Result<UploadResult, string>, n: nat)
    requires n >= 1
    requires forall j :: 0 <= j < n ==> !(run(j).Ok? && run(j).value.success)
    ensures AttemptLoop(run, n) == match run(n - 1)
      case Ok(res) => Attempts(Some(res), None)
      case Err(e) => Attempts(None, Some(e))
  {
    LastFrom(run, n, 0, Attempts(None, None));
  }

  lemma {:induction false} LastFrom(run: nat -> Result<UploadResult, string>, n: nat, i: nat, st: Attempts)
    requires i < n
    requires forall j :: i <= j < n ==> !(run(j).Ok? && run(j).value.success)
    ensures AttemptFrom(run, i, n, st) == match run(n - 1)
      case Ok(res) => Attempts(Some(res), None)
      case Err(e) => Attempts(None, Some(e))
    decreases n - i
  {
    var next := match run(i) case Ok(res) => Attempts(Some(res), None) case Err(e) => Attempts(None, Some(e));
    if i + 1 < n {
      LastFrom(run, n, i + 1, next);
    }
  }

  // ------------------------------------------------------- the answer

  /** `_make_data_item` for the last result, or for none. */
  function MakeDataItem(result: Option<UploadResult>, lastError: Option<string>, videoName: string, gindex: Json, guid: Json, version: Json)
    : (d: DataItem)
    ensures result.None? ==> d.auditStatus == "error" && d.dedeUserId == "" && d.videoName == videoName
    ensures result.None? ==> d.errorReason == (if lastError.Some? then lastError.value else "")
    ensures result.Some? ==> d.auditStatus == result.value.auditStatus && d.errorReason == result.value.reason
  {
    var g := if Truthy(guid) then guid else JStr("");
    var v := if Truthy(version) then version else JStr("");
    match result
    case Some(res) =>
      DataItem(res.auditStatus, res.dedeUserId, if res.filename != "" then res.filename else videoName, res.reason, gindex, g, v)
    case None =>
      DataItem("error", "", videoName, if lastError.Some? then lastError.value else "", gindex, g, v)
  }

  /** A decided audit. */
  predicate Decided(result: Option<UploadResult>) {
    result.Some? && (result.value.auditStatus == "passed" || result.value.auditStatus == "rejected")
  }

  /** The code mapping after the attempt loop. */
  function Answer(st: Attempts, videoName: string, gindex: Json, guid: Json, version: Json): (r: Response)
    ensures r.Reply? && r.data.Some? && r.msg.None?
    ensures r.code == 0 <==> Decided(st.lastResult)
    ensures r.code != 0 ==> r.code == -200
    ensures r.code == 0 && st.lastResult.value.auditStatus == "passed" ==> r.data.value.errorReason == ""
    ensures r.code == 0 && st.lastResult.value.auditStatus == "rejected" ==> r.data.value.errorReason == st.lastResult.value.reason
    ensures st.lastResult.None? ==> r.data.value.auditStatus == "error"
  {
    if Decided(st.lastResult) then
      var d := MakeDataItem(st.lastResult, st.lastError, videoName, gindex, guid, version);
      Reply(0, Some(d.(errorReason := if st.lastResult.value.auditStatus == "passed" then "" else st.lastResult.value.reason)), None)
    else
      Reply(-200, Some(MakeDataItem(st.lastResult, st.lastError, videoName, gindex, guid, version)), None)
  }

  /** The title handed to the publisher: the request's when it is truthy, else the merged file's stem. */
  function UploadTitle(body: Json, videoName: string): (t: Json)
    ensures Truthy(Get(body, "title")) ==> t == Get(body, "title")
    ensures !Truthy(Get(body, "title")) ==> t == JStr(SplitExt(videoName).0)
  {
    var t := GetOr(body, "title", JStr(""));
    if Truthy(t) then t else JStr(SplitExt(videoName).0)
  }

  /** The request body: the parsed JSON when it is truthy, else `{}`. */
  function RequestBody(raw: Option<Json>): Json {
    if raw.Some? && Truthy(raw.value) then raw.value else JObj([])
  }

  /** `videos` is missing, falsy or not a list. */
  predicate BadVideos(body: Json) {
    !Truthy(Get(body, "videos")) || !Get(body, "videos").JList?
  }

  /**
   * `push_playwright_bilibili`. `raw` is the parsed body (None when it is no
   * JSON); `merge` is the external merge of the paths into one file (its path,
   * or the exception's text); `publish(title, i)` is the `i`-th call of the
   * browser publisher with that title.
   */
  function Handle(
    raw: Option<Json>, merge: seq<string> -> Result<string, string>,
    publish: (Json, nat) -> Result<UploadResult, string>): (r: Response)
    ensures r.Reply? && r.code == 0 ==> r.data.Some? && (r.data.value.auditStatus == "passed" || r.data.value.auditStatus == "rejected")
    ensures r.Reply? ==> r.code in {0, -100, -200}
    ensures var body := RequestBody(raw);
      body.JObj? && BadVideos(body) ==> r == Reply(-100, None, Some(MissingVideosMsg))
    ensures var body := RequestBody(raw);
      body.JObj? && !BadVideos(body) && RequestPaths(Get(body, "videos").items) == [] ==> r == Reply(-100, None, Some(EmptyVideosMsg))
    ensures var body := RequestBody(raw);
      body.JObj? && !BadVideos(body) ==>
        var paths := RequestPaths(Get(body, "videos").items);
        paths != [] && RetryCount(body).Some? && merge(paths).Err? ==> r == Reply(-100, None, Some(MergeFailedPrefix + merge(paths).error))
  {
    var body := RequestBody(raw);
    if !body.JObj? then InternalError
    else
      var videos := Get(body, "videos");
      if !Truthy(videos) || !videos.JList? then Reply(-100, None, Some(MissingVideosMsg))
      else
        var paths := RequestPaths(videos.items);
        if paths == [] then Reply(-100, None, Some(EmptyVideosMsg))
        else match RetryCount(body)
          case None => InternalError
          case Some(retry) =>
            match merge(paths)
            case Err(e) => Reply(-100, None, Some(MergeFailedPrefix + e))
            case Ok(merged) =>
              var videoName := Basename(merged);
              var title := UploadTitle(body, videoName);
              var st := AttemptLoop((i: nat) => publish(title, i), MaxAttempts(retry));
              Answer(st, videoName, Get(body, "gindex"), GetDefault(body, "guid", JStr("")), GetDefault(body, "version", JStr("")))
  }

  /**
   * The request is refused with -100 exactly when `videos` is unusable, names
   * no path, or the merge of its paths fails; every other answer is 0, -200 or
   * an internal error.
   */
  lemma BadRequestIff(raw: Option<Json>, merge: seq<string> -> Result<string, string>,
                      publish: (Json, nat) -> Result<UploadResult, string>)
    ensures var r := Handle(raw, merge, publish);
      var body := RequestBody(raw);
      (r.Reply? && r.code == -100) <==>
        body.JObj? &&
        (BadVideos(body) || RequestPaths(Get(body, "videos").items) == []
         || (RetryCount(body).Some? && merge(RequestPaths(Get(body, "videos").items)).Err?))
  {
    var body := RequestBody(raw);
    if body.JObj? && !BadVideos(body) {
      var paths := RequestPaths(Get(body, "videos").items);
      if paths != [] && RetryCount(body).Some? && merge(paths).Ok? {
        var videoName := Basename(merge(paths).value);
        var title := UploadTitle(body, videoName);
        var st := AttemptLoop((i: nat) => publish(title, i), MaxAttempts(RetryCount(body).value));
        assert Handle(raw, merge, publish)
            == Answer(st, videoName, Get(body, "gindex"), GetDefault(body, "guid", JStr("")), GetDefault(body, "version", JStr("")));
      }
    }
  }

  /**
   * After a successful merge the answer is the one built from the publish
   * attempts, titled by the request's title or the merged file's stem.
   */
  lemma MergedAnswer(raw: Option<Json>, merge: seq<string> -> Result<string, string>,
                     publish: (Json, nat) -> Result<UploadResult, string>)
    requires var body := RequestBody(raw); body.JObj? && !BadVideos(body)
    requires var body := RequestBody(raw); RequestPaths(Get(body, "videos").items) != [] && RetryCount(body).Some?
    requires merge(RequestPaths(Get(RequestBody(raw), "videos").items)).Ok?
    ensures var body := RequestBody(raw);
      var videoName := Basename(merge(RequestPaths(Get(body, "videos").items)).value);
      var title := UploadTitle(body, videoName);
      Handle(raw, merge, publish)
        == Answer(AttemptLoop((i: nat) => publish(title, i), MaxAttempts(RetryCount(body).value)), videoName,
                  Get(body, "gindex"), GetDefault(body, "guid", JStr("")), GetDefault(body, "version", JStr("")))
  {
  }

  /** A list whose every entry strips to nothing is refused with the empty-list message. */
  lemma AllBlankRefused(raw: Option<Json>, merge: seq<string> -> Result<string, string>,
                        publish: (Json, nat) -> Result<UploadResult, string>)
    requires var body := RequestBody(raw); body.JObj? && !BadVideos(body)
    requires var items := Get(RequestBody(raw), "videos").items;
      forall i :: 0 <= i < |items| ==> Strip(Str(items[i])) == ""
    ensures Handle(raw, merge, publish) == Reply(-100, None, Some(EmptyVideosMsg))
  {
    RequestPathsEmpty(Get(RequestBody(raw), "videos").items);
  }

  method PushPlaywrightBilibili(
    raw: Option<Json>, merge: seq<string> -> Result<string, string>,
    publish: (Json, nat) -> Result<UploadResult, string>) returns (r: Response)
    ensures r == Handle(raw, merge, publish)
  {
    var body := RequestBody(raw);
    if !body.JObj? {
      return InternalError;
    }
    var videos := Get(body, "videos");
    if !Truthy(videos) || !videos.JList? {
      return Reply(-100, None, Some(MissingVideosMsg));
    }
    var paths := CollectPaths(videos.items);
    if paths == [] {
      return Reply(-100, None, Some(EmptyVideosMsg));
    }
    var retry := RetryCount(body);
    if retry.None? {
      return InternalError;
    }
    var merged := merge(paths);
    if merged.Err? {
      return Reply(-100, None, Some(MergeFailedPrefix + merged.error));
    }
    var videoName := Basename(merged.value);
    var title := UploadTitle(body, videoName);
    var st := RunAttempts((i: nat) => publish(title, i), MaxAttempts(retry.value));
    r := Answer(st, videoName, Get(body, "gindex"), GetDefault(body, "guid", JStr("")), GetDefault(body, "version", JStr("")));
  }

  /**
   * A rejected result is not a success, so it is retried: with a second attempt
   * left, the answer reports that attempt instead.
   */
  lemma RejectedIsRetried(run: nat -> Result<UploadResult, string>, res: UploadResult, second: UploadResult)
    requires run(0) == Ok(res) && res.auditStatus == "rejected" && !res.success
    requires run(1) == Ok(second) && !second.success
    ensures AttemptLoop(run, 2) == Attempts(Some(second), None)
  {
    NoSuccessKeepsLast(run, 2);
  }

  /** An exception in the last attempt wipes out any earlier result, so the answer is -200 with the exception's text. */
  lemma LastExceptionWins(run: nat -> Result<UploadResult, string>, n: nat, e: string, videoName: string, gindex: Json, guid: Json, version: Json)
    requires n >= 1 && run(n - 1) == Err(e)
    requires forall j :: 0 <= j < n ==> !(run(j).Ok? && run(j).value.success)
    ensures Answer(AttemptLoop(run, n), videoName, gindex, guid, version).code == -200
    ensures Answer(AttemptLoop(run, n), videoName, gindex, guid, version).data.value.errorReason == e
  {
    NoSuccessKeepsLast(run, n);
    ErrorAnswer(AttemptLoop(run, n), e, videoName, gindex, guid, version);
  }

  /** After an exception the answer is -200 carrying the exception's text. */
  lemma ErrorAnswer(st: Attempts, e: string, videoName: string, gindex: Json, guid: Json, version: Json)
    requires st == Attempts(None, Some(e))
    ensures Answer(st, videoName, gindex, guid, version).code == -200
    ensures Answer(st, videoName, gindex, guid, version).data.value.errorReason == e
  {
    assert !Decided(st.lastResult);
  }
}
