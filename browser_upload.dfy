/**
 * The browser publisher's `main`: pick the video and the accounts, then visit
 * the upload page with one account after another until one of them gets the
 * video submitted. A visit is described by what the pages showed it; browser
 * actions whose outcome the script ignores are not part of it.
 */
module BrowserUpload {
  import opened Base
  import opened Text
  import opened Dicts
  import opened PyJson
  import opened PathOps
  import opened BiliAuth
  import opened BrowserCookies
  import opened BrowserPage

  /** `UploadResult` (its `duration_sec` is not modelled). */
  datatype UploadResult = UploadResult(filename: string, auditStatus: string, reason: string, success: bool, dedeUserId: string)

  // ------------------------------------------------------- one account's visit

  /** The stretch of the account body, between two decisions, in which a statement outside every handler raised. */
  datatype Stage =
    | Opening    // creating the context, adding cookies, opening the upload page
    | Uploading  // making the file input visible and setting the file
    | Preparing  // the waits and form filling between the upload and the button lookup
    | Aiming     // scrolling to the submit button

  datatype Crash = Crash(stage: Stage, error: string)

  /**
   * One pass of the first submit loop: the error of the forced click when the
   * click and the forced click both raised, the body read afterwards (None when
   * reading raised), and, after a cover prompt, whether a button was found
   * again (None when closing the prompt or the lookup raised, which the loop
   * swallows before it stops).
   */
  datatype ClickRound = ClickRound(clickError: Option<string>, body: Option<string>, buttonAgain: Option<bool>)

  /** One pass of the cover retry after a submit: the body read, whether a button was found, and the error of its click. */
  datatype RetryRound = RetryRound(body: Option<string>, button: bool, clickError: Option<string>)

  /** The one resubmit when "进行中" did not show: no button, the click raised, or the second check after the click. */
  datatype Resubmit = NoButton | ResubmitRaised(error: string) | Resubmitted(check: PubingCheck)

  /** What the pages showed during one account's visit, in the order the script looks. */
  datatype Visit = Visit(
    crash: Option<Crash>,
    landing: Page,
    uploadPolls: seq<Option<string>>,
    coverReady: seq<Option<string>>,
    coverImage: seq<CoverLook>,
    coverClear: seq<Option<string>>,
    button: bool,
    first: ClickRound,
    second: ClickRound,
    limitBody: Option<string>,
    okBody: Option<string>,
    retry1: RetryRound,
    retry2: RetryRound,
    finalBody: Option<string>,
    pubing: PubingCheck,
    resubmit: Resubmit,
    audit: seq<AuditPoll>)

  /** How a visit ends: every outcome but `Published` moves on to the next account. */
  datatype Outcome =
    | CookieExpired
    | UploadTimedOut
    | NoSubmitButton
    | AccountLimited
    | NotSubmitted
    | CoverNotReady
    | NotInProgress
    | Crashed(error: string)
    | Published(status: AuditStatus)

  function CrashAt(v: Visit, s: Stage): Option<string> {
    if v.crash.Some? && v.crash.value.stage == s then Some(v.crash.value.error) else None
  }

  /** What clicking `None` raises when no button was found again before the second click. */
  const NoneClickError := "'NoneType' object has no attribute 'click'"

  /** Submit clicks made, or the error that escaped a click. */
  datatype Clicks = ClickRaised(error: string) | Clicked(count: nat)

  /**
   * The first submit loop: at most two clicks, the second only after the first
   * left a cover prompt on the page; when no button was found again, the second
   * click is made on `None` and raises.
   */
  function SubmitClicks(first: ClickRound, second: ClickRound): (r: Clicks)
    ensures r.Clicked? ==> 1 <= r.count <= 2
    ensures r.Clicked? && r.count == 2 ==> ShowsCoverPrompt(first.body) && first.buttonAgain == Some(true)
    ensures first.clickError.Some? ==> r == ClickRaised(first.clickError.value)
    ensures first.clickError.None? && !ShowsCoverPrompt(first.body) ==> r == Clicked(1)
    ensures first.clickError.None? && ShowsCoverPrompt(first.body) && first.buttonAgain == Some(false) ==> r == ClickRaised(NoneClickError)
  {
    if first.clickError.Some? then ClickRaised(first.clickError.value)
    else if !ShowsCoverPrompt(first.body) || first.buttonAgain.None? then Clicked(1)
    else if !first.buttonAgain.value then ClickRaised(NoneClickError)
    else if second.clickError.Some? then ClickRaised(second.clickError.value)
    else Clicked(2)
  }

  /** The `for attempt in range(2)` loop around the submit click. */
  method SubmitClickLoop(first: ClickRound, second: ClickRound) returns (r: Clicks)
    ensures r == SubmitClicks(first, second)
  {
    var haveButton := true;
    var clicks := 0;
    var attempt := 0;
    while attempt < 2
      invariant attempt <= 2 && clicks == attempt
      invariant attempt == 0 ==> haveButton
      invariant attempt >= 1 ==> first.clickError.None? && ShowsCoverPrompt(first.body) && first.buttonAgain.Some?
      invariant attempt == 1 ==> haveButton == first.buttonAgain.value
      invariant attempt == 2 ==> first.buttonAgain == Some(true) && second.clickError.None?
    {
      var round := if attempt == 0 then first else second;
      if !haveButton {
        return ClickRaised(NoneClickError);
      }
      if round.clickError.Some? {
        return ClickRaised(round.clickError.value);
      }
      clicks := clicks + 1;
      if !ShowsCoverPrompt(round.body) || round.buttonAgain.None? {
        break;
      }
      haveButton := round.buttonAgain.value;
      attempt := attempt + 1;
    }
    return Clicked(clicks);
  }

  /** The cover retry after a submit: at most two more clicks, each only while a cover prompt shows and a button is found. */
  function CoverRetries(r1: RetryRound, r2: RetryRound): (r: Clicks)
    ensures r.Clicked? ==> r.count <= 2
    ensures !ShowsCoverPrompt(r1.body) ==> r == Clicked(0)
    ensures r.Clicked? && r.count > 0 ==> ShowsCoverPrompt(r1.body) && r1.button
  {
    if !ShowsCoverPrompt(r1.body) || !r1.button then Clicked(0)
    else if r1.clickError.Some? then ClickRaised(r1.clickError.value)
    else if !ShowsCoverPrompt(r2.body) || !r2.button then Clicked(1)
    else if r2.clickError.Some? then ClickRaised(r2.clickError.value)
    else Clicked(2)
  }

  /** The `for _ in range(2)` loop that resubmits while a cover prompt stays after the submit. */
  method CoverRetryLoop(r1: RetryRound, r2: RetryRound) returns (r: Clicks)
    ensures r == CoverRetries(r1, r2)
  {
    var clicks := 0;
    while clicks < 2
      invariant clicks <= 2
      invariant clicks >= 1 ==> ShowsCoverPrompt(r1.body) && r1.button && r1.clickError.None?
      invariant clicks == 2 ==> ShowsCoverPrompt(r2.body) && r2.button && r2.clickError.None?
    {
      var round := if clicks == 0 then r1 else r2;
      if !ShowsCoverPrompt(round.body) || !round.button {
        break;
      }
      if round.clickError.Some? {
        return ClickRaised(round.clickError.value);
      }
      clicks := clicks + 1;
    }
    return Clicked(clicks);
  }

  /** "进行中" showed on the first check, or on the second check after the one resubmit. */
  predicate InProgress(v: Visit) {
    InProgressShown(v.pubing) || (v.resubmit.Resubmitted? && InProgressShown(v.resubmit.check))
  }

  /** The visit from the first submit click on. */
  function AfterClicking(v: Visit, title: string): (o: Outcome)
    ensures o.Published? ==>
      !IsAccountLimit(v.limitBody) && IsSubmitOk(v.okBody)
      && !ShowsCoverPrompt(v.finalBody) && InProgress(v) && o.status == AuditResult(v.audit, title)
  {
    match SubmitClicks(v.first, v.second)
    case ClickRaised(e) => Crashed(e)
    case Clicked(_) =>
      if IsAccountLimit(v.limitBody) then AccountLimited
      else if !IsSubmitOk(v.okBody) then NotSubmitted
      else match CoverRetries(v.retry1, v.retry2)
        case ClickRaised(e) => Crashed(e)
        case Clicked(_) =>
          if ShowsCoverPrompt(v.finalBody) then CoverNotReady
          else if !InProgress(v) then NotInProgress
          else Published(AuditResult(v.audit, title))
  }

  /**
   * How one account's visit ends (`main`'s loop body): an expired cookie, an
   * upload that does not finish, a missing submit button, an account limit, a
   * page that does not confirm the submit, a cover prompt that stays, or no
   * "进行中" even after one resubmit each move on, as does an exception;
   * otherwise the audit poll decides the status.
   */
  function VisitOutcome(v: Visit, title: string): (o: Outcome)
    ensures o.Published? ==> v.crash.None? && !IsCookieExpired(v.landing) && UploadCompletes(v.uploadPolls) && v.button
    ensures o.Published? ==>
      !IsAccountLimit(v.limitBody) && IsSubmitOk(v.okBody)
      && !ShowsCoverPrompt(v.finalBody) && InProgress(v) && o.status == AuditResult(v.audit, title)
    ensures IsCookieExpired(v.landing) && CrashAt(v, Opening).None? ==> o == CookieExpired
  {
    if CrashAt(v, Opening).Some? then Crashed(CrashAt(v, Opening).value)
    else if IsCookieExpired(v.landing) then CookieExpired
    else if CrashAt(v, Uploading).Some? then Crashed(CrashAt(v, Uploading).value)
    else if !UploadCompletes(v.uploadPolls) then UploadTimedOut
    else if CrashAt(v, Preparing).Some? then Crashed(CrashAt(v, Preparing).value)
    else if !v.button then NoSubmitButton
    else if CrashAt(v, Aiming).Some? then Crashed(CrashAt(v, Aiming).value)
    else AfterClicking(v, title)
  }

  /** One account's visit; the readiness waits run, but their results are only logged. */
  method VisitAccount(v: Visit, title: string) returns (o: Outcome)
    ensures o == VisitOutcome(v, title)
  {
    if CrashAt(v, Opening).Some? {
      return Crashed(CrashAt(v, Opening).value);
    }
    if IsCookieExpired(v.landing) {
      return CookieExpired;
    }
    if CrashAt(v, Uploading).Some? {
      return Crashed(CrashAt(v, Uploading).value);
    }
    var uploaded, looks := WaitUploadComplete(v.uploadPolls);
    if !uploaded {
      return UploadTimedOut;
    }
    var coverReady := WaitCoverReady(v.coverReady);
    var coverShown := WaitCoverImageVisible(v.coverImage);
    var coverClear := WaitCoverReady(v.coverClear);
    if CrashAt(v, Preparing).Some? {
      return Crashed(CrashAt(v, Preparing).value);
    }
    if !v.button {
      return NoSubmitButton;
    }
    if CrashAt(v, Aiming).Some? {
      return Crashed(CrashAt(v, Aiming).value);
    }
    var clicks := SubmitClickLoop(v.first, v.second);
    if clicks.ClickRaised? {
      return Crashed(clicks.error);
    }
    if IsAccountLimit(v.limitBody) {
      return AccountLimited;
    }
    if !IsSubmitOk(v.okBody) {
      return NotSubmitted;
    }
    var retries := CoverRetryLoop(v.retry1, v.retry2);
    if retries.ClickRaised? {
      return Crashed(retries.error);
    }
    if ShowsCoverPrompt(v.finalBody) {
      return CoverNotReady;
    }
    var inProgress := CheckInProgress(v.pubing);
    if !inProgress && v.resubmit.Resubmitted? {
      inProgress := CheckInProgress(v.resubmit.check);
    }
    if !inProgress {
      return NotInProgress;
    }
    var status := WaitForAuditResult(v.audit, title);
    return Published(status);
  }

  /** The readiness waits never decide how a visit ends: whatever they see, the outcome is the same. */
  lemma ReadinessWaitsNeverDecide(v: Visit, title: string, ready: seq<Option<string>>, image: seq<CoverLook>, clear: seq<Option<string>>)
    ensures VisitOutcome(v.(coverReady := ready, coverImage := image, coverClear := clear), title) == VisitOutcome(v, title)
  {
    var w := v.(coverReady := ready, coverImage := image, coverClear := clear);
    assert AfterClicking(w, title) == AfterClicking(v, title);
  }

  /** A visit whose first check of the "投稿中" list and whose resubmit both show no "进行中" moves on. */
  lemma NoProgressMovesOn(v: Visit, title: string)
    requires !InProgressShown(v.pubing)
    requires !v.resubmit.Resubmitted? || !InProgressShown(v.resubmit.check)
    ensures !VisitOutcome(v, title).Published?
  {
  }

  // ------------------------------------------------------- the account loop

  /** `cookies.get("DedeUserID") or ""`. */
  function DedeUserId(c: CookieDict): string {
    match Lookup(c, "DedeUserID")
    case Some(id) => id
    case None => ""
  }

  const AllFailedMsg := "所有账号均未成功（Cookie 过期或账号限制），请检查配置或稍后重试。"
  const ErrorPrefix := "投稿过程出错: "

  function StatusName(s: AuditStatus): string {
    match s
    case Passed => "passed"
    case Rejected => "rejected"
    case TimedOut => "timeout"
  }

  function StatusReason(s: AuditStatus): string {
    match s
    case Passed => "审核通过"
    case Rejected => "审核未通过/已退回，请到创作中心查看原因"
    case TimedOut => "审核监听超时未出结果，请到创作中心稿件管理查看"
  }

  /** The result of the first published visit. */
  function PublishedResult(filename: string, s: AuditStatus, id: string): (r: UploadResult)
    ensures r.success <==> s == Passed
  {
    UploadResult(filename, StatusName(s), StatusReason(s), s == Passed, id)
  }

  /** The result after every account failed: the last exception's text if one was raised, else the all-failed message. */
  function Exhausted(filename: string, lastError: Option<string>, usedId: string): (r: UploadResult)
    ensures r.auditStatus == "error" && !r.success && r.dedeUserId == usedId
  {
    match lastError
    case Some(e) => UploadResult(filename, "error", ErrorPrefix + e, false, usedId)
    case None => UploadResult(filename, "error", AllFailedMsg, false, usedId)
  }

  /**
   * The account loop from the `i`-th account on, `lastError` and `usedId`
   * carried from the accounts before it; `outcome(i)` is how the `i`-th visit ends.
   */
  function PublishFrom(
    filename: string, accounts: seq<CookieDict>, outcome: nat -> Outcome,
    i: nat, lastError: Option<string>, usedId: string): (r: UploadResult)
    requires i <= |accounts|
    ensures r.success <==> r.auditStatus == "passed"
    ensures r.auditStatus in ["passed", "rejected", "timeout", "error"]
    decreases |accounts| - i
  {
    if i == |accounts| then Exhausted(filename, lastError, usedId)
    else
      var id := DedeUserId(accounts[i]);
      match outcome(i)
      case Published(s) => PublishedResult(filename, s, id)
      case Crashed(e) => PublishFrom(filename, accounts, outcome, i + 1, Some(e), id)
      case _ => PublishFrom(filename, accounts, outcome, i + 1, lastError, id)
  }

  /** How each visit of the account loop ends. */
  function Outcomes(visit: nat -> Visit, title: string): nat -> Outcome {
    (j: nat) => VisitOutcome(visit(j), title)
  }

  /** `main`'s loop over the (shuffled) accounts; `visit(i)` is what the `i`-th visit sees. */
  method PublishWithAccounts(filename: string, accounts: seq<CookieDict>, visit: nat -> Visit, title: string)
    returns (r: UploadResult)
    ensures r == PublishFrom(filename, accounts, Outcomes(visit, title), 0, None, "")
  {
    var lastError: Option<string> := None;
    var usedId := "";
    for i := 0 to |accounts|
      invariant PublishFrom(filename, accounts, Outcomes(visit, title), i, lastError, usedId)
        == PublishFrom(filename, accounts, Outcomes(visit, title), 0, None, "")
    {
      usedId := DedeUserId(accounts[i]);
      var o := VisitAccount(visit(i), title);
      assert o == Outcomes(visit, title)(i);
      if o.Published? {
        return PublishedResult(filename, o.status, usedId);
      }
      if o.Crashed? {
        lastError := Some(o.error);
      }
    }
    return Exhausted(filename, lastError, usedId);
  }

  /** The first account whose visit gets published decides the result; later accounts are never visited. */
  lemma FirstPublishedWins(filename: string, accounts: seq<CookieDict>, visit: nat -> Visit, title: string, i: nat)
    requires i < |accounts| && VisitOutcome(visit(i), title).Published?
    requires forall j :: 0 <= j < i ==> !VisitOutcome(visit(j), title).Published?
    ensures PublishFrom(filename, accounts, Outcomes(visit, title), 0, None, "")
      == PublishedResult(filename, VisitOutcome(visit(i), title).status, DedeUserId(accounts[i]))
  {
    var outcome := Outcomes(visit, title);
    assert forall j :: 0 <= j < i ==> !outcome(j).Published?;
    FirstPublishedFrom(filename, accounts, outcome, i, 0, None, "");
  }

  lemma {:induction false} FirstPublishedFrom(
    filename: string, accounts: seq<CookieDict>, outcome: nat -> Outcome,
    i: nat, k: nat, lastError: Option<string>, usedId: string)
    requires k <= i < |accounts| && outcome(i).Published?
    requires forall j :: k <= j < i ==> !outcome(j).Published?
    ensures PublishFrom(filename, accounts, outcome, k, lastError, usedId)
      == PublishedResult(filename, outcome(i).status, DedeUserId(accounts[i]))
    decreases i - k
  {
    if k < i {
      var next := if outcome(k).Crashed? then Some(outcome(k).error) else lastError;
      assert PublishFrom(filename, accounts, outcome, k, lastError, usedId)
        == PublishFrom(filename, accounts, outcome, k + 1, next, DedeUserId(accounts[k]));
      FirstPublishedFrom(filename, accounts, outcome, i, k + 1, next, DedeUserId(accounts[k]));
    }
  }

  /** The error of the last visit among the first `n` that raised, if any did. */
  function LastCrash(outcome: nat -> Outcome, n: nat): Option<string> {
    if n == 0 then None
    else match outcome(n - 1)
      case Crashed(e) => Some(e)
      case _ => LastCrash(outcome, n - 1)
  }

  /**
   * When no visit gets published the result is an error carrying the last
   * exception's text, or the all-failed message when no visit raised, and the
   * DedeUserID of the last account tried.
   */
  lemma ExhaustedReportsLastCrash(filename: string, accounts: seq<CookieDict>, visit: nat -> Visit, title: string)
    requires |accounts| > 0
    requires forall j :: 0 <= j < |accounts| ==> !VisitOutcome(visit(j), title).Published?
    ensures PublishFrom(filename, accounts, Outcomes(visit, title), 0, None, "")
      == Exhausted(filename, LastCrash(Outcomes(visit, title), |accounts|), DedeUserId(accounts[|accounts| - 1]))
  {
    var outcome := Outcomes(visit, title);
    assert forall j :: 0 <= j < |accounts| ==> !outcome(j).Published?;
    ExhaustedFrom(filename, accounts, outcome, 0, "");
  }

  lemma {:induction false} ExhaustedFrom(
    filename: string, accounts: seq<CookieDict>, outcome: nat -> Outcome, k: nat, usedId: string)
    requires 0 < |accounts| && k <= |accounts|
    requires forall j :: k <= j < |accounts| ==> !outcome(j).Published?
    requires k == |accounts| ==> usedId == DedeUserId(accounts[|accounts| - 1])
    ensures PublishFrom(filename, accounts, outcome, k, LastCrash(outcome, k), usedId)
      == Exhausted(filename, LastCrash(outcome, |accounts|), DedeUserId(accounts[|accounts| - 1]))
    decreases |accounts| - k
  {
    if k < |accounts| {
      ExhaustedFrom(filename, accounts, outcome, k + 1, DedeUserId(accounts[k]));
    }
  }

  // ------------------------------------------------------- shuffling the accounts

  /** `random.shuffle`: from the last index down to 1, swap with the index `draw(i) % (i + 1)`, the random draw below `i + 1`. */
  function Shuffled<T>(xs: seq<T>, draw: nat -> nat, i: nat): (r: seq<T>)
    requires i < |xs| || (i == 0 && xs == [])
    ensures |r| == |xs|
    decreases i
  {
    if i == 0 then xs
    else
      var j := draw(i) % (i + 1);
      Shuffled(xs[i := xs[j]][j := xs[i]], draw, i - 1)
  }

  /** The shuffle only reorders the accounts. */
  lemma {:induction false} ShuffledIsPermutation<T>(xs: seq<T>, draw: nat -> nat, i: nat)
    requires i < |xs| || (i == 0 && xs == [])
    ensures multiset(Shuffled(xs, draw, i)) == multiset(xs)
    decreases i
  {
    if i > 0 {
      var j := draw(i) % (i + 1);
      var ys := xs[i := xs[j]][j := xs[i]];
      SwapIsPermutation(xs, i, j);
      ShuffledIsPermutation(ys, draw, i - 1);
    }
  }

  lemma SwapIsPermutation<T>(xs: seq<T>, i: nat, j: nat)
    requires i < |xs| && j < |xs|
    ensures multiset(xs[i := xs[j]][j := xs[i]]) == multiset(xs)
  {
    var ys := xs[i := xs[j]];
    assert multiset(ys) == multiset(xs) - multiset{xs[i]} + multiset{xs[j]};
    assert ys[j] == xs[j];
    assert multiset(ys[j := xs[i]]) == multiset(ys) - multiset{ys[j]} + multiset{xs[i]};
  }

  method Shuffle<T>(xs: seq<T>, draw: nat -> nat) returns (ys: seq<T>)
    ensures ys == Shuffled(xs, draw, if xs == [] then 0 else |xs| - 1)
    ensures multiset(ys) == multiset(xs)
  {
    ys := xs;
    if xs == [] {
      return;
    }
    var i := |xs| - 1;
    while i > 0
      invariant 0 <= i < |ys| == |xs|
      invariant Shuffled(ys, draw, i) == Shuffled(xs, draw, |xs| - 1)
    {
      var j := draw(i) % (i + 1);
      ys := ys[i := ys[j]][j := ys[i]];
      i := i - 1;
    }
    ShuffledIsPermutation(xs, draw, |xs| - 1);
  }

  // ------------------------------------------------------- main

  const ImportMsg := "请先安装 playwright: pip install playwright，并执行: playwright install chromium"
  const NoCookieMsg := "未配置 Cookie。请填写 COOKIES_LIST（数组）或 COOKIE_FILE / COOKIES_DICT。"
  const MissingVideoPrefix := "视频文件不存在: "
  const DefaultVideoPath := "/Users/xxxx/Downloads/4444.mp4"
  const DefaultTitle := ""

  /** The script's settings: its own directory (where `cookie.json` lives), `COOKIES_LIST` and `COOKIES_DICT`. */
  datatype Config = Config(scriptDir: string, cookiesList: seq<Json>, cookiesDict: Option<CookieDict>)

  /** The cookie files tried for a `cookie_file` argument: it (made absolute) and the script's `cookie.json`, duplicates dropped. */
  function CookieCandidates(cwd: string, cookieFile: string, scriptDir: string): (r: seq<string>)
    requires StartsWith(cwd, "/")
    ensures 1 <= |r| <= 2 && r[|r| - 1] == PathJoin(scriptDir, "cookie.json")
    ensures |r| == 2 ==> r[0] != r[1]
  {
    var given := if StartsWith(cookieFile, "/") then cookieFile else AbsPath(cwd, cookieFile);
    var local := PathJoin(scriptDir, "cookie.json");
    if given == local then [local] else [given, local]
  }

  /** The accounts of the first candidate that is a file and yields some; `fs` maps a path to its content, None when it is no file. */
  function FromCandidates(paths: seq<string>, fs: string -> Option<string>, parse: string -> Option<Json>): (r: Option<seq<CookieDict>>)
    ensures r.Some? ==> r.value != [] && forall k :: 0 <= k < |r.value| ==> LoginCookies(r.value[k])
    ensures r.Some? ==> exists i :: 0 <= i < |paths| && r == LoadedAccounts(paths[i], fs(paths[i]), parse)
  {
    if paths == [] then None
    else
      var here := if fs(paths[0]).Some? then LoadedAccounts(paths[0], fs(paths[0]), parse) else None;
      if here.Some? then here
      else
        var rest := FromCandidates(paths[1..], fs, parse);
        assert rest.Some? ==> exists i :: 1 <= i < |paths| && rest == LoadedAccounts(paths[i], fs(paths[i]), parse) by {
          if rest.Some? {
            var i :| 0 <= i < |paths[1..]| && rest == LoadedAccounts(paths[1..][i], fs(paths[1..][i]), parse);
            assert paths[1..][i] == paths[i + 1];
          }
        }
        rest
  }

  /** The candidate loop of `main`: a file that yields accounts ends it. */
  method LoadFromCandidates(paths: seq<string>, fs: string -> Option<string>, parse: string -> Option<Json>)
    returns (r: Option<seq<CookieDict>>)
    ensures r == FromCandidates(paths, fs, parse)
  {
    r := None;
    var i := 0;
    while i < |paths|
      invariant i <= |paths|
      invariant FromCandidates(paths[i..], fs, parse) == FromCandidates(paths, fs, parse)
    {
      assert paths[i..][1..] == paths[i + 1..];
      if fs(paths[i]).Some? {
        r := LoadCookiesFromFile(paths[i], fs(paths[i]), parse);
        if r.Some? {
          return;
        }
      }
      i := i + 1;
    }
    return None;
  }

  /** The accounts `main` uses: from the `cookie_file` candidates, else from `get_cookies_list`. */
  function MainAccounts(cwd: string, cookieFile: string, cfg: Config, fs: string -> Option<string>, parse: string -> Option<Json>)
    : (r: Option<seq<CookieDict>>)
    requires StartsWith(cwd, "/")
    ensures r.Some? ==> r.value != [] && forall i :: 0 <= i < |r.value| ==> LoginCookies(r.value[i])
  {
    var fromFile := if cookieFile != "" then FromCandidates(CookieCandidates(cwd, cookieFile, cfg.scriptDir), fs, parse) else None;
    if fromFile.Some? then fromFile
    else
      var file := PathJoin(cfg.scriptDir, "cookie.json");
      ConfiguredAccounts(cfg.cookiesList, cfg.cookiesDict, file, fs(file), parse)
  }

  /** The cookie lookup of `main`. */
  method LoadAccounts(cwd: string, cookieFile: string, cfg: Config, fs: string -> Option<string>, parse: string -> Option<Json>)
    returns (accounts: Option<seq<CookieDict>>)
    requires StartsWith(cwd, "/")
    ensures accounts == MainAccounts(cwd, cookieFile, cfg, fs, parse)
  {
    accounts := None;
    if cookieFile != "" {
      accounts := LoadFromCandidates(CookieCandidates(cwd, cookieFile, cfg.scriptDir), fs, parse);
    }
    if accounts.None? {
      var file := PathJoin(cfg.scriptDir, "cookie.json");
      accounts := GetCookiesList(cfg.cookiesList, cfg.cookiesDict, file, fs(file), parse);
    }
  }

  /** The title: the argument when given, else `VIDEO_TITLE`, stripped; when that is empty, the video's file name without extension. */
  function Title(titleArg: Option<string>, filename: string): (t: string)
    ensures Strip(titleArg.GetOr(DefaultTitle)) != "" ==> t == Strip(titleArg.GetOr(DefaultTitle))
    ensures Strip(titleArg.GetOr(DefaultTitle)) == "" ==> t == SplitExt(filename).0
  {
    var t := Strip(if titleArg.Some? then titleArg.value else DefaultTitle);
    if t != "" then t else SplitExt(filename).0
  }

  /** A video named with a stem always gets a non-empty title. */
  lemma TitleNeverBlank(titleArg: Option<string>, filename: string)
    requires SplitExt(filename).0 != ""
    ensures Title(titleArg, filename) != ""
  {
  }

  /**
   * `main`: with Playwright missing, a missing video or no usable account it
   * returns an "error" result at once; otherwise it shuffles the accounts and
   * runs the account loop. `cwd` is the working directory; `draw` stands for
   * the random draws; `visit(i)` is what the `i`-th visit sees.
   */
  function PublishVideoResult(
    playwright: bool, cwd: string, videoArg: string, titleArg: Option<string>, cookieFile: string,
    cfg: Config, fs: string -> Option<string>, parse: string -> Option<Json>,
    draw: nat -> nat, visit: nat -> Visit): (r: UploadResult)
    requires StartsWith(cwd, "/")
    ensures !playwright ==> r == UploadResult("", "error", ImportMsg, false, "")
    ensures r.success <==> r.auditStatus == "passed"
  {
    if !playwright then UploadResult("", "error", ImportMsg, false, "")
    else
      var videoPath := AbsPath(cwd, if videoArg != "" then videoArg else DefaultVideoPath);
      var filename := Basename(videoPath);
      if fs(videoPath).None? then UploadResult(filename, "error", MissingVideoPrefix + videoPath, false, "")
      else match MainAccounts(cwd, cookieFile, cfg, fs, parse)
        case None => UploadResult(filename, "error", NoCookieMsg, false, "")
        case Some(accounts) =>
          var order := Shuffled(accounts, draw, |accounts| - 1);
          PublishFrom(filename, order, Outcomes(visit, Title(titleArg, filename)), 0, None, "")
  }

  method PublishVideo(
    playwright: bool, cwd: string, videoArg: string, titleArg: Option<string>, cookieFile: string,
    cfg: Config, fs: string -> Option<string>, parse: string -> Option<Json>,
    draw: nat -> nat, visit: nat -> Visit) returns (r: UploadResult)
    requires StartsWith(cwd, "/")
    ensures r == PublishVideoResult(playwright, cwd, videoArg, titleArg, cookieFile, cfg, fs, parse, draw, visit)
  {
    if !playwright {
      return UploadResult("", "error", ImportMsg, false, "");
    }
    var videoPath := AbsPath(cwd, if videoArg != "" then videoArg else DefaultVideoPath);
    var filename := Basename(videoPath);
    if fs(videoPath).None? {
      return UploadResult(filename, "error", MissingVideoPrefix + videoPath, false, "");
    }
    var accounts := LoadAccounts(cwd, cookieFile, cfg, fs, parse);
    if accounts.None? {
      return UploadResult(filename, "error", NoCookieMsg, false, "");
    }
    var title := Title(titleArg, filename);
    var order := Shuffle(accounts.value, draw);
    r := PublishWithAccounts(filename, order, visit, title);
  }

  /** Whatever the shuffle picks, every account `main` found is tried in some order, each exactly once. */
  lemma MainTriesEveryAccount(accounts: seq<CookieDict>, draw: nat -> nat)
    requires accounts != []
    ensures multiset(Shuffled(accounts, draw, |accounts| - 1)) == multiset(accounts)
  {
    ShuffledIsPermutation(accounts, draw, |accounts| - 1);
  }
}
