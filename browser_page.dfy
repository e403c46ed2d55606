/**
 * What the browser publisher reads off its pages: the text classifiers, the
 * polling waits, the in-progress check of the "投稿中" list and the audit poll of
 * the manage pages. A page is what one look at it returns; a wait is the looks
 * that fit before its deadline.
 */
module BrowserPage {
  import opened Base
  import opened Text

  /** One look at a page: its URL and the text of its body, None when reading the text raised. */
  datatype Page = Page(url: string, body: Option<string>)

  /** `s[:n]`. */
  function Take(s: string, n: nat): (r: string)
    ensures |r| == if |s| <= n then |s| else n
    ensures StartsWith(s, r)
  {
    if |s| <= n then s else s[..n]
  }

  /** Some pattern of `ps` occurs in `s`. */
  function ContainsAny(s: string, ps: seq<string>): (r: bool)
    ensures r <==> exists i :: 0 <= i < |ps| && Contains(s, ps[i])
  {
    if ps == [] then false
    else
      assert forall i :: 1 <= i < |ps| ==> ps[1..][i - 1] == ps[i];
      Contains(s, ps[0]) || ContainsAny(s, ps[1..])
  }

  // ------------------------------------------------------- classifiers

  const LoginPrompts: seq<string> := ["请登录", "登录后", "未登录"]
  const ExpiredTextLimit: nat := 2000

  /**
   * `_is_cookie_expired`: the page went to a passport or login URL, or the first
   * 2000 characters of its body ask to log in; a body that cannot be read does
   * not count as expired.
   */
  predicate IsCookieExpired(p: Page) {
    Contains(p.url, "passport") || Contains(Lower(p.url), "login")
    || (p.body.Some? && ContainsAny(Take(p.body.value, ExpiredTextLimit), LoginPrompts))
  }

  /** Only the first 2000 characters of the body are read: what follows cannot mark the cookie expired. */
  lemma ExpiredReadsOnlyTheHead(url: string, head: string, rest: string)
    requires |head| >= ExpiredTextLimit
    ensures IsCookieExpired(Page(url, Some(head + rest))) == IsCookieExpired(Page(url, Some(head)))
  {
    assert Take(head + rest, ExpiredTextLimit) == Take(head, ExpiredTextLimit);
  }

  /**
   * `_is_account_limit`: posting too often, a daily limit reached, or the last
   * test, which Python reads as `"已达上限" in t or ("频率" in t and "限制" in t)`.
   */
  predicate IsAccountLimit(body: Option<string>) {
    body.Some? &&
    var t := body.value;
    Contains(t, "投稿过于频繁") || Contains(t, "过于频繁")
    || (Contains(t, "今日投稿") && (Contains(t, "达") || Contains(t, "上限") || Contains(t, "限制")))
    || Contains(t, "已达上限") || (Contains(t, "频率") && Contains(t, "限制"))
  }

  /** Under Python precedence "已达上限" alone is a limit, while "频率" needs "限制" beside it. */
  lemma AccountLimitPrecedence()
    ensures IsAccountLimit(Some("已达上限"))
    ensures !IsAccountLimit(Some("频率"))
    ensures IsAccountLimit(Some("频率限制"))
  {
    assert StartsWith("已达上限", "已达上限");
    var f := "频率";
    forall p | p in ["限制", "过于频繁", "投稿过于频繁", "今日投稿", "已达上限"] ensures !Contains(f, p) {
      if Contains(f, p) {
        ContainsHead(f, p);
      }
    }
    var g := "频率限制";
    assert StartsWith(g, "频率");
    assert g[1..][1..] == "限制";
    assert Contains(g[1..][1..], "限制");
  }

  /** The first test is subsumed by the second: text with "投稿过于频繁" also holds "过于频繁". */
  lemma LimitFirstTestSubsumed(t: string)
    requires Contains(t, "投稿过于频繁")
    ensures Contains(t, "过于频繁")
  {
    ContainsPart(t, "投稿过于频繁", 2, 4);
    assert "投稿过于频繁"[2..6] == "过于频繁";
  }

  /** `_is_submit_ok`: the page speaks of the manuscript, its review or its processing; an unreadable body is not ok. */
  predicate IsSubmitOk(body: Option<string>) {
    body.Some? && (Contains(body.value, "稿件") || Contains(body.value, "审核") || Contains(body.value, "处理"))
  }

  const CoverPrompts: seq<string> := [
    "请先上传封面", "封面图未上传", "封面图没识别出来", "封面没识别出来",
    "未上传封面", "请上传封面", "请选择封面"
  ]

  /** `_has_cover_not_ready_prompt`: the text is non-empty and shows one of the seven cover prompts. */
  function HasCoverNotReadyPrompt(text: string): (r: bool)
    ensures r <==> text != "" && exists i :: 0 <= i < |CoverPrompts| && Contains(text, CoverPrompts[i])
  {
    if text == "" then false else ContainsAny(text, CoverPrompts)
  }

  /** The emptiness guard never changes the answer: empty text holds none of the prompts anyway. */
  lemma CoverPromptGuardRedundant(text: string)
    ensures HasCoverNotReadyPrompt(text) <==> exists i :: 0 <= i < |CoverPrompts| && Contains(text, CoverPrompts[i])
  {
    if text == "" {
      forall i | 0 <= i < |CoverPrompts| ensures !Contains(text, CoverPrompts[i]) {
        ContainsInEmpty(CoverPrompts[i]);
      }
    }
  }

  /** A look whose body shows a cover prompt. */
  predicate ShowsCoverPrompt(body: Option<string>) {
    body.Some? && HasCoverNotReadyPrompt(body.value)
  }

  /** The submit button `_get_submit_btn` settles on: "立即投稿" when it shows in time, else "投稿", else none. */
  function SubmitButton(immediateShown: bool, plainShown: bool): (r: Option<string>)
    ensures r.Some? <==> immediateShown || plainShown
    ensures immediateShown ==> r == Some("立即投稿")
  {
    if immediateShown then Some("立即投稿") else if plainShown then Some("投稿") else None
  }

  // ------------------------------------------------------- waiting for the upload

  /** One look during `_wait_upload_complete` that ends it: no "上传中", and "上传完成", "上传成功" or "100%". */
  predicate UploadDone(body: Option<string>) {
    body.Some? && !Contains(body.value, "上传中")
    && (Contains(body.value, "上传完成") || Contains(body.value, "上传成功") || Contains(body.value, "100%"))
  }

  predicate UploadCompletes(polls: seq<Option<string>>) {
    exists j :: 0 <= j < |polls| && UploadDone(polls[j])
  }

  /**
   * `_wait_upload_complete` over the looks that fit before its deadline: the first
   * look that shows the upload finished ends the wait with True; running out of
   * looks gives False. A look that still shows "上传中" never ends it.
   */
  method WaitUploadComplete(polls: seq<Option<string>>) returns (done: bool, used: nat)
    ensures done <==> UploadCompletes(polls)
    ensures done ==> 1 <= used <= |polls| && UploadDone(polls[used - 1])
    ensures done ==> forall j :: 0 <= j < used - 1 ==> !UploadDone(polls[j])
    ensures !done ==> used == |polls|
  {
    used := 0;
    while used < |polls|
      invariant used <= |polls|
      invariant forall j :: 0 <= j < used ==> !UploadDone(polls[j])
    {
      var body := polls[used];
      used := used + 1;
      if body.Some? {
        var text := body.value;
        if Contains(text, "上传中") || Contains(text, "上传中...") {
          if !Contains(text, "上传中") {
            assert "上传中..."[0..3] == "上传中";
            ContainsPart(text, "上传中...", 0, 3);
          }
          continue;
        }
        if Contains(text, "上传完成") || Contains(text, "上传成功") {
          return true, used;
        }
        if Contains(text, "100%") && !Contains(text, "上传中") {
          return true, used;
        }
      }
    }
    return false, used;
  }

  // ------------------------------------------------------- two clean looks in a row

  predicate TwoInARow(clean: seq<bool>) {
    exists i :: 1 <= i < |clean| && clean[i - 1] && clean[i]
  }

  /**
   * The counter of the readiness waits (`_wait_cover_image_visible`,
   * `_wait_cover_and_required_ready` and the check before the submit click):
   * a clean look adds one, any other look resets it to 0, and two in a row end
   * the wait with True; running out of looks gives False.
   */
  method WaitTwoClean(clean: seq<bool>) returns (ready: bool, used: nat)
    ensures ready <==> TwoInARow(clean)
    ensures ready ==> 2 <= used <= |clean| && clean[used - 2] && clean[used - 1] && !TwoInARow(clean[..used - 1])
    ensures !ready ==> used == |clean|
  {
    var ok := 0;
    used := 0;
    while used < |clean|
      invariant used <= |clean|
      invariant !TwoInARow(clean[..used])
      invariant ok == if used > 0 && clean[used - 1] then 1 else 0
    {
      if clean[used] {
        ok := ok + 1;
      } else {
        ok := 0;
      }
      used := used + 1;
      if ok >= 2 {
        assert clean[used - 2] && clean[used - 1];
        return true, used;
      }
      assert !TwoInARow(clean[..used]) by {
        forall i | 1 <= i < used ensures !(clean[..used][i - 1] && clean[..used][i]) {
          if i < used - 1 {
            assert clean[..used - 1][i - 1] == clean[i - 1] && clean[..used - 1][i] == clean[i];
          }
        }
      }
    }
    assert clean[..used] == clean;
    return false, used;
  }

  /** One look of `_wait_cover_image_visible`: the body (None when reading raised) and whether a cover image is in the page. */
  datatype CoverLook = CoverLook(body: Option<string>, image: bool)

  /** A look is clean for the cover-image wait when the body reads, shows no prompt and an image is there. */
  function CoverImageClean(looks: seq<CoverLook>): (r: seq<bool>)
    ensures |r| == |looks|
    ensures forall i :: 0 <= i < |looks| ==> r[i] == (looks[i].body.Some? && !HasCoverNotReadyPrompt(looks[i].body.value) && looks[i].image)
  {
    if looks == [] then []
    else [looks[0].body.Some? && !HasCoverNotReadyPrompt(looks[0].body.value) && looks[0].image] + CoverImageClean(looks[1..])
  }

  /** A look is clean for the cover-text waits when the body reads and shows no prompt. */
  function CoverTextClean(bodies: seq<Option<string>>): (r: seq<bool>)
    ensures |r| == |bodies|
    ensures forall i :: 0 <= i < |bodies| ==> r[i] == (bodies[i].Some? && !HasCoverNotReadyPrompt(bodies[i].value))
  {
    if bodies == [] then []
    else [bodies[0].Some? && !HasCoverNotReadyPrompt(bodies[0].value)] + CoverTextClean(bodies[1..])
  }

  /** `_wait_cover_image_visible`. */
  method WaitCoverImageVisible(looks: seq<CoverLook>) returns (ready: bool)
    ensures ready <==> TwoInARow(CoverImageClean(looks))
  {
    var used;
    ready, used := WaitTwoClean(CoverImageClean(looks));
  }

  /** `_wait_cover_and_required_ready`, and the same counter before the submit click. */
  method WaitCoverReady(bodies: seq<Option<string>>) returns (ready: bool)
    ensures ready <==> TwoInARow(CoverTextClean(bodies))
  {
    var used;
    ready, used := WaitTwoClean(CoverTextClean(bodies));
  }

  /** A look with a prompt between two clean looks breaks the pair; two clean looks at the end still make it. */
  lemma PromptBreaksThePair()
    ensures !TwoInARow([true, false, true])
    ensures TwoInARow([false, true, true])
  {
    assert [false, true, true][1] && [false, true, true][2];
  }

  // ------------------------------------------------------- the "投稿中" list

  /** The check of the "投稿中" list: opening it raised, or the bodies read before its deadline. */
  datatype PubingCheck = PubingRaised | PubingPolls(bodies: seq<Option<string>>)

  predicate InProgressShown(c: PubingCheck) {
    c.PubingPolls? && exists i :: 0 <= i < |c.bodies| && c.bodies[i].Some? && Contains(c.bodies[i].value, "进行中")
  }

  /** `_check_is_pubing_has_in_progress`: True as soon as a look shows "进行中"; any failure is False. */
  method CheckInProgress(c: PubingCheck) returns (r: bool)
    ensures r == InProgressShown(c)
  {
    if c.PubingRaised? {
      return false;
    }
    var i := 0;
    while i < |c.bodies|
      invariant i <= |c.bodies|
      invariant forall j :: 0 <= j < i ==> !(c.bodies[j].Some? && Contains(c.bodies[j].value, "进行中"))
    {
      var body := c.bodies[i];
      if body.Some? && Contains(body.value, "进行中") {
        return true;
      }
      i := i + 1;
    }
    return false;
  }

  // ------------------------------------------------------- the audit poll

  /** A manage page: the texts of its title elements (as the page trims them) and of its rows. */
  datatype ManagePage = ManagePage(titles: seq<string>, rows: seq<string>)

  /** One round of `wait_for_audit_result`: a navigation raised, or the approved and the not-approved page. */
  datatype AuditPoll = PollRaised | Polled(pubed: ManagePage, notPubed: ManagePage)

  datatype AuditStatus = Passed | Rejected | TimedOut

  /** `_page_has_article_with_title`: some title element reads exactly the stripped title, which must not be empty. */
  predicate HasArticle(page: ManagePage, title: string) {
    var t := Strip(title);
    t != "" && t in page.titles
  }

  /** The first row holding `t`, cut to 1000 characters. */
  function FirstRow(rows: seq<string>, t: string): (r: Option<string>)
    ensures r.Some? ==> |r.value| <= 1000
    ensures r.Some? <==> exists i :: 0 <= i < |rows| && Contains(rows[i], t)
  {
    if rows == [] then None
    else if Contains(rows[0], t) then Some(Take(rows[0], 1000))
    else
      assert forall i :: 1 <= i < |rows| ==> rows[1..][i - 1] == rows[i];
      FirstRow(rows[1..], t)
  }

  /** `_get_article_row_text_by_title`. */
  function RowText(page: ManagePage, title: string): Option<string> {
    var t := Strip(title);
    if t == "" then None else FirstRow(page.rows, t)
  }

  /** The row still says "审核中" (under review). */
  predicate UnderReview(row: Option<string>) {
    row.Some? && row.value != "" && Contains(row.value, "审核中")
  }

  /** What one round decides: approved when listed as approved, rejected when listed as not approved and not under review. */
  function Verdict(poll: AuditPoll, title: string): (r: Option<AuditStatus>)
    ensures r != Some(TimedOut)
    ensures r == Some(Passed) <==> poll.Polled? && HasArticle(poll.pubed, title)
    ensures r == Some(Rejected) <==>
      (poll.Polled? && !HasArticle(poll.pubed, title)
       && HasArticle(poll.notPubed, title) && !UnderReview(RowText(poll.notPubed, title)))
  {
    match poll
    case PollRaised => None
    case Polled(pubed, notPubed) =>
      if HasArticle(pubed, title) then Some(Passed)
      else if HasArticle(notPubed, title) && !UnderReview(RowText(notPubed, title)) then Some(Rejected)
      else None
  }

  /** The result of the audit poll over the rounds that fit in its time limit. */
  function AuditResult(polls: seq<AuditPoll>, title: string): AuditStatus {
    if polls == [] then TimedOut
    else match Verdict(polls[0], title)
      case Some(v) => v
      case None => AuditResult(polls[1..], title)
  }

  /** `wait_for_audit_result`: rounds until one decides, else "timeout". */
  method WaitForAuditResult(polls: seq<AuditPoll>, title: string) returns (r: AuditStatus)
    ensures r == AuditResult(polls, title)
  {
    var i := 0;
    while i < |polls|
      invariant i <= |polls|
      invariant AuditResult(polls[i..], title) == AuditResult(polls, title)
    {
      var v := Verdict(polls[i], title);
      if v.Some? {
        return v.value;
      }
      assert polls[i..][1..] == polls[i + 1..];
      i := i + 1;
    }
    return TimedOut;
  }

  /** The first round that decides fixes the result. */
  lemma {:induction false} AuditFirstDecisive(polls: seq<AuditPoll>, title: string, i: nat)
    requires i < |polls| && Verdict(polls[i], title).Some?
    requires forall j :: 0 <= j < i ==> Verdict(polls[j], title).None?
    ensures AuditResult(polls, title) == Verdict(polls[i], title).value
  {
    if i > 0 {
      AuditFirstDecisive(polls[1..], title, i - 1);
    }
  }

  /** Without a deciding round the poll times out. */
  lemma {:induction false} AuditUndecidedTimesOut(polls: seq<AuditPoll>, title: string)
    requires forall j :: 0 <= j < |polls| ==> Verdict(polls[j], title).None?
    ensures AuditResult(polls, title) == TimedOut
  {
    if polls != [] {
      AuditUndecidedTimesOut(polls[1..], title);
    }
  }

  /** A rejection always comes from a round where the video was listed as not approved, not as approved, and not under review. */
  lemma {:induction false} AuditRejectedWitness(polls: seq<AuditPoll>, title: string)
    requires AuditResult(polls, title) == Rejected
    ensures exists i :: 0 <= i < |polls| && Verdict(polls[i], title) == Some(Rejected)
  {
    if Verdict(polls[0], title).None? {
      AuditRejectedWitness(polls[1..], title);
      var i :| 0 <= i < |polls[1..]| && Verdict(polls[1..][i], title) == Some(Rejected);
      assert polls[i + 1] == polls[1..][i];
    }
  }

  /** A blank title is never found, so the poll can only time out. */
  lemma BlankTitleTimesOut(polls: seq<AuditPoll>, title: string)
    requires Strip(title) == ""
    ensures AuditResult(polls, title) == TimedOut
  {
    AuditUndecidedTimesOut(polls, title);
  }

  /** Any video already approved under the same title makes the first readable round pass. */
  lemma SameTitleApprovedPasses(pubed: ManagePage, notPubed: ManagePage, rest: seq<AuditPoll>, title: string)
    requires Strip(title) != "" && Strip(title) in pubed.titles
    ensures AuditResult([Polled(pubed, notPubed)] + rest, title) == Passed
  {
  }
}
