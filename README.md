# videoCutPush, modelled in Dafny

This project models the core of videoCutPush. videoCutPush is a set of Python tools that prepare short videos and publish them to Bilibili. The model covers:

- **The native Bilibili upload client** (`push/bilibili`):
  - logging in from a cookie file, a cookie string or a QR-code scan;
  - checking a cookie against the account endpoint;
  - asking the upload lines for a credential;
  - uploading the file in chunks with retries and completing the multipart upload;
  - submitting the manuscript through the web or the signed app endpoint.
- **The pusher registry** (`push/__init__.py`).
- **The browser publish path** (`playwright_push`):
  - loading and normalising browser cookies;
  - the page waits and checks of the upload form, the submit and cover retries, and the audit poll;
  - publishing with several accounts in turn;
  - the HTTP handler that wraps the publisher with its own retries.
- **The merge scripts** (`merge_mp4_ffmpeg.py`, `merge_mp4_ffmpeg2.py`, `merge_mp4_cv2.py`, `merge_mp4_moviepy.py`):
  - the shared `file '…'` concat-list format;
  - downloading list entries into a temporary directory;
  - naming the local copies;
  - the ffmpeg command lines;
  - the clean-up rules.
- **The batch driver** (`test_playwright_push_videos.py`): turns list entries into local files and publishes them.
- **The first-frame scripts** (`cut_video_first_frame`).

The network, the file system, the browser, ffmpeg, OpenCV and MoviePy do not appear as effects. What they answer is a parameter:

- a function from a request to a reply;
- a record of what a page shows on successive polls;
- the result of a subprocess;
- the exception a download raises.

An operation that changes a `requests.Session` is a method on a `Session` class whose `sent`, `headers` and `cookies` fields it updates. Loops in the source are methods with `while`/`for` loops. Each such method is proved equal to a specification function, and the properties are proved about that function. Python values are modelled explicitly:

- JSON and truthiness;
- dicts as insertion-ordered association lists;
- `str.strip`, `split`, `lower`;
- `os.path`;
- `int()`, `str()`, `urlencode` and `quote_plus`.

Python exceptions are `Raised(kind, message)` values.

Files, one module each: `base` (Option, Result, exceptions), `text` (string functions), `dicts` (ordered dicts), `pyjson` (JSON values and truthiness), `http` (requests, replies, the session class), `urlencode`, `pathops`, `concat_list` (the list format), `concat_merge` (the shared ffmpeg concat merge), `auth`, `upload`, `client`, `registry`, `browser_cookies`, `browser_page`, `browser_upload`, `api_push`, `merge_ffmpeg`, `merge_ffmpeg2`, `merge_cv2`, `merge_moviepy`, `batch_push`, `first_frame_ffmpeg`, `first_frame_moviepy`.

## Model

| member | source | states |
|---|---|---|
| BiliAuth.Truthies | push/bilibili/auth.py:195 | the dict comprehension keeps only entries with a non-empty value, never more entries than the input |
| BiliAuth.TruthiesKeys | push/bilibili/auth.py:195 | filtering by value introduces no key the dict did not have |
| BiliAuth.TruthiesDistinct | push/bilibili/auth.py:195 | filtering keeps the keys distinct |
| BiliAuth.LookupTruthies | push/bilibili/auth.py:195 | a key with a non-empty value reads the same value after filtering |
| BiliAuth.ParsedCookies | push/bilibili/auth.py:76-85 | a parsed cookie string is returned only when SESSDATA and bili_jct are both non-empty |
| BiliAuth.ParseCookieString | push/bilibili/auth.py:78-85 | the parsing loop yields exactly the specification: later `k=v` parts override earlier ones, parts without `=` are skipped |
| BiliAuth.ParseStep | push/bilibili/auth.py:79-82 | one more part assigns its stripped key and value (replacing an existing key in place) or changes nothing |
| BiliAuth.EntryStrings | push/bilibili/auth.py:90 | one `k=v` string per entry, in dict order |
| BiliAuth.CookieStringRoundTrip | push/bilibili/auth.py:88-90 | parsing `cookie_string_from_dict(d)` gives back `d` without its empty values, when the separators do not occur and the login cookies are set |
| BiliAuth.CookieString | push/bilibili/auth.py:88-90 | the truthy entries as `k=v` joined with "; "; stated by BiliAuth.CookieStringRoundTrip |
| BiliAuth.PartsOfCookieString | push/bilibili/auth.py:79 | splitting the joined string at `;` and blanks yields the serialised entries again |
| BiliAuth.CheckCookie | push/bilibili/auth.py:93-116 | no SESSDATA means invalid without a request; valid iff `code` equals 0 and `data.isLogin` is True, with the data dict as user; a transport error escapes |
| BiliAuth.LoginWithCookie | push/bilibili/auth.py:119-131 | succeeds iff the cookie is valid, else fails with the check's verdict; the login keeps the cookies; csrf is bili_jct's value, or "" when it is not set; mid is DedeUserID when set, else the stringified `mid` of the account reply, else None when that `mid` is null or missing |
| BiliAuth.FlatEntry | push/bilibili/auth.py:63-68 | a flat-layout field becomes a cookie under its own key, never one of the four metadata keys |
| BiliAuth.CookieInfoStep | push/bilibili/auth.py:53-55 | one more `cookie_info.cookies` item assigns its cookie if it has a name and a non-None value |
| BiliAuth.FlatStep | push/bilibili/auth.py:64-68 | one more flat field assigns its stringified value unless it is metadata or None |
| BiliAuth.LoadedCookies | push/bilibili/auth.py:29-73 | no path or no file gives (None, None); non-JSON text is parsed as a cookie string; returned cookies always hold the login cookies; token_info is a dict; a `cookie_info.cookies` entry named by a list or dict gives (None, None) (BiliAuth.UnhashableNameRefused) |
| BiliAuth.LoadCookieFromFile | push/bilibili/auth.py:29-73 | the method computes the specification of the three file layouts, the caught TypeError included |
| BiliAuth.CollectCookieInfo | push/bilibili/auth.py:52-55 | the loop over `cookie_info.cookies` gives None iff some entry's name is a list or dict, else the dict of the entries' cookies in order |
| BiliAuth.UnhashablePrefix | push/bilibili/auth.py:53-55 | one more entry raises iff it or an earlier one is named by a list or dict; used by BiliAuth.CollectCookieInfo |
| BiliAuth.NameUnhashable | push/bilibili/auth.py:54-55 | an entry that passes the checks but whose name is a list or dict, so `out[c["name"]]` raises TypeError; stated by BiliAuth.CollectCookieInfo |
| BiliAuth.AnyNameUnhashable | push/bilibili/auth.py:53-55 | some entry of the list raises; stated by BiliAuth.CollectCookieInfo |
| BiliAuth.UnhashableNameRefused | push/bilibili/auth.py:52-73 | an entry with a truthy list or dict name and a value makes the reader return (None, None): the TypeError is caught |
| BiliAuth.SavedNamesHashable | push/bilibili/auth.py:219-225 | every cookie the QR login saves is named by a string, so the saved file never hits that TypeError |
| BiliAuth.QrKey | push/bilibili/auth.py:149-159 | the QR key is used only when the generate reply has code 0 and a truthy key and URL |
| BiliAuth.TokenOf | push/bilibili/auth.py:197-213 | an access token is reported only from a code-0 reply's token_info dict and is not None |
| BiliAuth.SavedCookies | push/bilibili/auth.py:219-227 | one `cookie_info.cookies` item per cookie, in order |
| BiliAuth.PollStep | push/bilibili/auth.py:177-265 | a poll escapes iff the transport raises and expires iff code is 86038; it finishes iff code is 0, the redirect went through and the account check did not raise; then the login is `login_with_cookie` of the jar's non-empty cookies, present iff they are valid, and the token is the access-token reply's; a code-0 pass whose redirect went through writes exactly the `cookie_info` file of those cookies, the token info and the clock when a save path is given, and nothing else writes; the poll request is always sent first |
| BiliAuth.ScanCookies | push/bilibili/auth.py:192-195 | the jar's `.bilibili.com` cookies, all cookies when there are none, keeping those with a value; stated by BiliAuth.PollStep |
| BiliAuth.Scanned | push/bilibili/auth.py:187-191 | code 0 and a redirect that did not raise; stated by BiliAuth.PollStep |
| BiliAuth.Confirmed | push/bilibili/auth.py:187-255 | a scanned reply whose account check did not raise, so the function returns; stated by BiliAuth.PollStep and BiliAuth.ConfirmedScanFinishes |
| BiliAuth.PollsStopAt | push/bilibili/auth.py:177-261 | the first pass that does not poll again ends the loop with its outcome after that many polls; its file, if it wrote one, is the one saved last, and no file is saved when no pass wrote one |
| BiliAuth.ConfirmedScanFinishes | push/bilibili/auth.py:134-258 | when the first deciding poll is a confirmed scan, the QR login finishes there with the login of the scanned cookies (present iff they are valid) and that pass's access token, and the file saved is that pass's `cookie_info` file with a save path, none without |
| BiliAuth.PollCode | push/bilibili/auth.py:185-187 | the `code` of the poll reply's data dict; stated by BiliAuth.PollStep |
| BiliAuth.Polls | push/bilibili/auth.py:177-267 | the loop makes at most 120 polls and times out only after using all of them |
| BiliAuth.PollsContinue | push/bilibili/auth.py:262-265 | a poll that does not decide continues with the next one, accumulating requests, jar and saved file |
| BiliAuth.PollsStop | push/bilibili/auth.py:188-261 | a deciding poll ends the loop with its own outcome |
| BiliAuth.LoginWithQrcode | push/bilibili/auth.py:134-267 | the method sends exactly the requests of the specification, ends with its outcome and saved file (a confirmed scan: BiliAuth.ConfirmedScanFinishes), and leaves the session's jar as the redirect left it and its headers unchanged |
| BiliAuth.QrLogin | push/bilibili/auth.py:134-267 | the generate request, then at most the configured number of polls; stated by BiliAuth.LoginWithQrcode, the method it specifies, and by BiliAuth.ConfirmedScanFinishes |
| BiliAuth.PollLoop | push/bilibili/auth.py:177-267 | the `for` loop over 120 polls computes the specification |
| BiliAuth.PendingTimesOut | push/bilibili/auth.py:262-267 | while every reply is 86090 (scanned, not confirmed) the loop polls to the end and times out, having sent only poll requests |
| BiliAuth.FinishedLoginCookies | push/bilibili/auth.py:192-195 | a successful QR login logs in with a SESSDATA and only non-empty cookie values |
| BiliAuth.SavedCookiesLoad | push/bilibili/auth.py:215-252 | the file the QR login saves loads back as the same cookies and token info |
| BiliAuth.SaveData | push/bilibili/auth.py:215-252 | the file the QR login writes; stated by BiliAuth.SavedCookiesLoad |
| BiliAuth.SavedCookiesPairs | push/bilibili/auth.py:219-227 | reading the saved cookie list back gives the cookie dict |
| BiliUpload.FirstAccepted | push/bilibili/upload.py:68-79 | the first line whose reply has `OK` 1 or True, and no line before it accepted |
| BiliUpload.LineRequests | push/bilibili/upload.py:68-72 | the k-th request goes to the k-th upload line with the same parameters |
| BiliUpload.Preupload | push/bilibili/upload.py:47-84 | returns the first accepted reply, after asking exactly the lines up to it; after all four fail, fails with the last line's error; the session's headers and cookies are unchanged |
| BiliUpload.TryLines | push/bilibili/upload.py:67-84 | the line loop succeeds iff some line accepts, with the first accepting reply, and otherwise fails with the last line's error; one GET per line is sent, up to the line that accepted |
| BiliUpload.MultipartOkIsTruthy | push/bilibili/upload.py:96 | the double negation accepts exactly a truthy `OK` |
| BiliUpload.InitMultipart | push/bilibili/upload.py:87-98 | installs `X-Upos-Auth` (kept even when the request fails), posts to the object path without `upos://`, and returns `upload_id` iff the reply is OK |
| BiliUpload.HeaderGetFinds | push/bilibili/upload.py:103 | a header read is case-insensitive: found iff some header's name matches ignoring case |
| BiliUpload.HeaderGet | push/bilibili/upload.py:103 | a case-insensitive header read; stated by BiliUpload.HeaderGetFinds |
| BiliUpload.GetEtagSpec | push/bilibili/upload.py:101-114 | a non-empty header ETag wins; otherwise a truthy body `etag`/`ETag`; none iff neither exists; the result has no quote at either end |
| BiliUpload.GetEtag | push/bilibili/upload.py:101-114 | the ETag a stored chunk reports; its rules are stated by BiliUpload.GetEtagSpec and BiliUpload.EtagUnquoted |
| BiliUpload.EtagUnquoted | push/bilibili/upload.py:104-105 | a quoted header tag comes back without its quotes |
| BiliUpload.EtagOrDefault | push/bilibili/upload.py:158 | a chunk's completion tag is its etag, or "etag" when there is none |
| BiliUpload.CountBounds | push/bilibili/upload.py:126 | `ceil(size / chunk)` chunks cover the file with less than one chunk to spare |
| BiliUpload.ChunkTiling | push/bilibili/upload.py:130-135 | the chunks tile the file: each non-empty and at most a chunk long, consecutive, the last ending at the file size |
| BiliUpload.ChunkCount | push/bilibili/upload.py:126-129 | the number of times the chunk loop runs: `ceil(filesize / chunk_size)` for a positive chunk size and none for a negative one (a chunk size of 0 raises before the count, see BiliUpload.NoChunksUnlessPositive); bounds in BiliUpload.CountBounds |
| BiliUpload.ChunkLen | push/bilibili/upload.py:131-135 | a chunk never reaches past the end of the file, is non-empty when it starts inside it, and is a full chunk while the file lasts |
| BiliUpload.PartAttempts | push/bilibili/upload.py:138-163 | a chunk is stored only by a 200 reply within max_retry attempts, with a non-empty etag; a transport error escapes at the attempt that raised |
| BiliUpload.EarlierAttemptsFailed | push/bilibili/upload.py:138-163 | every attempt before the deciding one, and every attempt of an exhausted chunk, got a reply other than 200 |
| BiliUpload.Backoff | push/bilibili/upload.py:160-161 | the wait after failed attempt a is 5·(a+1) seconds |
| BiliUpload.PartBounds | push/bilibili/upload.py:138-161 | a chunk is sent at most max_retry times, with one wait between attempts and none after the last |
| BiliUpload.PutPart | push/bilibili/upload.py:138-163 | the retry loop sends the same PUT once per attempt of the specification and makes its waits |
| BiliUpload.Chunks | push/bilibili/upload.py:130-163 | the chunk loop either collects one non-empty etag per chunk or stops at a chunk that was not stored |
| BiliUpload.Parts | push/bilibili/upload.py:175-180 | the completion lists parts 1..n, each with its etag or "etag" |
| BiliUpload.SendChunks | push/bilibili/upload.py:129-163 | the chunk loop sends exactly the requests of the specification |
| BiliUpload.UploadChunks | push/bilibili/upload.py:117-187 | the whole upload sends the chunk requests then the completion, with the outcome and waits of the specification; headers and cookies unchanged |
| BiliUpload.ChunksStep | push/bilibili/upload.py:138-163 | one more chunk adds its etag or stops the loop, with its PUTs and waits |
| BiliUpload.ChunksStopped | push/bilibili/upload.py:163 | once a chunk failed, later chunks change nothing |
| BiliUpload.CompletionBody | push/bilibili/upload.py:163-181 | the completion is posted iff every chunk was stored, and then lists parts 1..N with the returned etags in order |
| BiliUpload.CompletionParts | push/bilibili/upload.py:165-181 | when every chunk was stored, the completion lists parts 1..N in upload order with the etags the chunks returned |
| BiliUpload.UploadRun | push/bilibili/upload.py:117-187 | the outcome, the requests and the waits of `upload_chunks`; stated by BiliUpload.UploadChunks, BiliUpload.CompletionBody and BiliUpload.NoChunksUnlessPositive |
| BiliUpload.NoChunksUnlessPositive | push/bilibili/upload.py:126-181 | a chunk size of 0 raises ZeroDivisionError before any request; a negative chunk size makes the chunk loop run zero times: no PUT, no wait, and the completion is posted with an empty part list |
| BiliUpload.PayloadFields | push/bilibili/upload.py:197-212 | the manuscript has the fourteen fields the source writes |
| BiliUpload.Payload | push/bilibili/upload.py:196-214 | the manuscript is a dict of at least those fields |
| BiliUpload.PayloadCopyright | push/bilibili/upload.py:196-214 | copyright is 2 with a source and 1 without; `dtime` is present exactly when given |
| BiliUpload.PayloadTitle | push/bilibili/upload.py:200-204 | the manuscript carries the given title and description |
| BiliUpload.PayloadTag | push/bilibili/upload.py:202 | a tag string is sent as given, a tag list joined with commas |
| BiliUpload.PayloadVideos | push/bilibili/upload.py:208 | the manuscript carries the video list |
| BiliUpload.SubmitWeb | push/bilibili/upload.py:190-237 | waits 2 s then posts; a second post after 5 s iff the first code is 21015; accepted iff a code is 0; a rejection carries the re-encode hint iff its code is 21015 |
| BiliUpload.SubmitApp | push/bilibili/upload.py:240-329 | token codes -101/-111/-400/-403 raise at once without retry; 21015 is retried once; a failed retry reports the first reply with the hint |
| BiliUpload.AppUrlShape | push/bilibili/upload.py:279-295 | the app URL's query is the eleven encoded fields in fixed order and a `sign` that is the digest of exactly the text before it plus the app secret |
| BiliUpload.Sign | push/bilibili/upload.py:42-44 | the MD5 digest of the query followed by the app secret; its place in the URL is stated by BiliUpload.AppUrlShape |
| BiliUpload.AppQuery | push/bilibili/upload.py:279-293 | the eleven query fields, URL-encoded in their fixed order; stated by BiliUpload.AppUrlShape |
| BiliUpload.AppQueryPairs | push/bilibili/upload.py:280-292 | the eleven query fields in their fixed order, the access token first; stated by BiliUpload.FirstAppField and BiliUpload.AppUrlCarriesToken |
| BiliUpload.AppSubmitUrl | push/bilibili/upload.py:293-295 | `APP_ADD_URL?<query>&sign=<digest>`; stated by BiliUpload.AppUrlShape and BiliUpload.AppUrlCarriesToken |
| BiliUpload.AppUrlCarriesToken | push/bilibili/upload.py:280-293 | the first `&`-separated field of the app query is `access_key=` followed by the encoded access token |
| BiliUpload.WebSubmitUrl | push/bilibili/upload.py:216-217 | `ADD_URL?t=<ms>&csrf=<csrf>`; stated by BiliUpload.WebUrlCarriesCsrf |
| BiliUpload.WebUrlCarriesCsrf | push/bilibili/upload.py:217 | the web submission URL starts with the address and the millisecond time and ends in `&csrf=` followed by the given token |
| BiliUpload.SubmitAdd | push/bilibili/upload.py:190-237 | `submit_add` posts the manuscript to the web URL built from the time and the CSRF token, once or twice as BiliUpload.SubmitWeb says, with its outcome; headers and cookies unchanged |
| BiliUpload.SubmitAddByApp | push/bilibili/upload.py:240-329 | `submit_add_by_app` posts the manuscript to the signed app URL built from the access token and the time, once or twice as BiliUpload.SubmitApp says, with its outcome; headers and cookies unchanged |
| BiliUpload.PostManuscript | push/bilibili/upload.py:222-237 | the same request is posted once, and a second time only after a 21015 that is not a token error; the outcome is that of BiliUpload.SubmitWeb or BiliUpload.SubmitApp |
| BiliUpload.RetryOutcome | push/bilibili/upload.py:226-233 | a retried submission has posted twice and waited 2 then 5 seconds |
| BiliUpload.SignedQuerySplit | push/bilibili/upload.py:293-295 | a signed query splits back into its fields and the signature |
| BiliUpload.FirstAppField | push/bilibili/upload.py:280-292 | the query has eleven fields and the access key is the first |
| BiliClient.RestoredLogsInOnlyValid | push/bilibili/client.py:47-58 | a restored pusher is logged in only with a SESSDATA cookie the account endpoint accepted, applied to the session |
| BiliClient.Restored | push/bilibili/client.py:47-60 | the end of `__init__`; stated by BiliClient.RestoredLogsInOnlyValid, BiliClient.ExplicitCookiesWin and BiliClient.AccessTokenFromFileOnly |
| BiliClient.FromLoaded | push/bilibili/client.py:53-60 | the cookie-file branch of `__init__`; stated through BiliClient.Restored by BiliClient.AccessTokenFromFileOnly and BiliClient.QrSaveRestores |
| BiliClient.ExplicitCookiesWin | push/bilibili/client.py:47-52 | a truthy explicit cookie dict is used and the cookie file is not read; the access token stays unset |
| BiliClient.AccessTokenFromFileOnly | push/bilibili/client.py:52-60 | the access token is set only from a cookie file with usable cookies whose token_info holds a truthy access_token |
| BiliClient.LoadedTokenTaken | push/bilibili/client.py:53-60 | the cookie-file branch changes the access token only to the truthy one of `token_info`, and only with usable cookies |
| BiliClient.QrSaveRestores | push/bilibili/client.py:52-60 | a pusher pointed at the file a QR login saved logs in with those cookies and takes the saved access token |
| BiliClient.RecheckYes | push/bilibili/client.py:101-108 | `is_logged_in` answers yes iff the flag is set and the account endpoint accepts the cookies; it changes nothing but the flag |
| BiliClient.Recheck | push/bilibili/client.py:101-108 | `is_logged_in`'s answer and the state after it; stated by BiliClient.RecheckYes and BiliClient.RecheckSettles |
| BiliClient.RecheckSettles | push/bilibili/client.py:102-107 | after a no, every later re-check says no without asking the server |
| BiliClient.LoginSucceeds | push/bilibili/client.py:75-99 | a successful login leaves the pusher logged in with a SESSDATA cookie |
| BiliClient.QrLoginFinished | push/bilibili/client.py:92-97 | the cookies a QR login hands back carry a SESSDATA |
| BiliClient.LoginWithoutQrcode | push/bilibili/client.py:82-99 | without the QR option a login changes neither the access token nor the cookies |
| BiliClient.Kept | push/bilibili/client.py:137 | the list comprehension keeps at most as many tags as there are pieces |
| BiliClient.KeptClean | push/bilibili/client.py:137 | kept tags are non-empty, stripped, and hold no character that no piece held |
| BiliClient.TagTextRoundTrip | push/bilibili/client.py:135-138 | the submitted tag string splits back into the first twelve (at most) stripped non-empty tags |
| BiliClient.NormalTags | push/bilibili/client.py:135-137 | `tag or []`, a string split on commas into stripped non-empty pieces; stated by BiliClient.TagTextRoundTrip |
| BiliClient.JoinedTags | push/bilibili/client.py:138 | the first twelve tags joined by commas; stated by BiliClient.TagTextRoundTrip |
| BiliClient.PreuploadFields | push/bilibili/client.py:142-148 | accepted fields always have a non-zero chunk size (a falsy one falls back to 4194304) and a non-empty URI and auth |
| BiliClient.PreuploadCamelCase | push/bilibili/client.py:143-146 | a camelCase reply is read like its snake_case twin, and the chunk size defaults to 4194304 |
| BiliClient.PreuploadSnakeCase | push/bilibili/client.py:142-146 | the snake_case reply gives its endpoint, URI, auth, biz id and chunk size, a negative chunk size included |
| BiliClient.PreuploadTrueChunkSize | push/bilibili/client.py:146 | a `true` chunk size is truthy and is used as 1 |
| BiliClient.PreuploadZeroBizId | push/bilibili/client.py:145-148 | a biz_id of 0 is falsy, so without bizId the reply is refused for lacking its biz id |
| BiliClient.PreuploadNeedsFields | push/bilibili/client.py:147-148 | a reply without endpoint, URI, auth or a biz id is refused before any upload |
| BiliClient.BeforeLastDot | push/bilibili/client.py:166 | `rsplit(".", 1)[0]` is everything before the last dot, whatever follows holds no dot, and a dotless name is unchanged |
| BiliClient.SubmitKeyDropsExtension | push/bilibili/client.py:163-166 | a completion reply naming `stem.ext` is submitted as `stem` |
| BiliClient.SubmitKeyFromUri | push/bilibili/client.py:160-166 | without a name in the completion reply the key is the pathlib stem of the URI without query and `upos://` |
| BiliClient.SubmitKey | push/bilibili/client.py:160-166 | the submitted file name; stated by BiliClient.SubmitKeyFromUri and BiliClient.SubmitKeyDropsExtension |
| BiliClient.SubmissionSends | push/bilibili/client.py:167-185 | a submission that goes through was answered code 0; the manuscript carries the title, the joined tags and the single video with the submit key; it is posted once, or twice after a 21015, to the credential's URL |
| BiliClient.SubmissionPosts | push/bilibili/client.py:170-185 | the manuscript is posted one or two times, every time to the URL of the credential |
| BiliClient.Submission | push/bilibili/client.py:167-185 | the manuscript sent, how its submission ended and its posts; stated by BiliClient.SubmissionSends and BiliClient.Submit |
| BiliClient.TransferredSubmits | push/bilibili/client.py:141-185 | a manuscript is sent exactly when the file was completed; a success carries title and tags |
| BiliClient.Transferred | push/bilibili/client.py:141-185 | preupload, init, chunks, completion and submission, with the requests sent and the upload credential installed; stated by BiliClient.TransferredSubmits, BiliClient.TransferredLastPost and BiliClient.Transfer |
| BiliClient.Accepted | push/bilibili/client.py:142-158 | after the accepted preupload reply: its fields, then the rest of the upload; stated by BiliClient.SendFields |
| BiliClient.Uploading | push/bilibili/client.py:155-185 | the chunks and the completion, then the submission; stated by BiliClient.UploadAndSubmit and BiliClient.UploadingSubmits |
| BiliClient.CredentialOf | push/bilibili/client.py:170-185 | the app endpoint with `str()` of the access token exactly when the pusher holds a truthy one; otherwise the CSRF token, None formatted as "None" |
| BiliClient.SubmitUrl | push/bilibili/client.py:170-185 | the URL the credential selects; stated by BiliClient.UploadCarriesCredential |
| BiliClient.SentSubmits | push/bilibili/client.py:152-185 | from the init on, a manuscript is sent exactly when the file was completed; a success carries title and tags |
| BiliClient.UploadingSubmits | push/bilibili/client.py:155-185 | from the chunks on, a manuscript is sent exactly when the file was completed; a success carries title and tags |
| BiliClient.TransferredLastPost | push/bilibili/client.py:141-185 | when a manuscript was submitted, the last request of the transfer posts it to the credential's URL |
| BiliClient.SentLastPost | push/bilibili/client.py:152-185 | the same from the init on |
| BiliClient.UploadingLastPost | push/bilibili/client.py:155-185 | the same from the chunks on |
| BiliClient.TransferredTokenExpired | push/bilibili/client.py:170-178 | an expired token is reported only with the app credential, and only when the first reply carries a token code |
| BiliClient.SentTokenExpired | push/bilibili/client.py:170-178 | the same from the init on |
| BiliClient.UploadingTokenExpired | push/bilibili/client.py:170-178 | the same from the chunks on |
| BiliClient.TransferredPreuploadFails | push/bilibili/client.py:141 | every line refused: the transfer fails with the last line's error after asking all four lines, and installs nothing |
| BiliClient.TransferredAccepted | push/bilibili/client.py:141-158 | an accepted line: the transfer goes on with its reply, behind the lines asked |
| BiliClient.TransferredFields | push/bilibili/client.py:142-158 | an accepted line: the transfer goes on with the fields of its reply, or fails with their error after the lines asked |
| BiliClient.SentAfterInit | push/bilibili/client.py:152 | an accepted init is followed by the chunks and the submission, behind the init request and with the upload credential |
| BiliClient.Uploaded | push/bilibili/client.py:110-185 | `upload`: refusals, then the transfer with the pusher's credential; stated by BiliClient.Pusher.Upload, BiliClient.UploadSucceeds, BiliClient.UploadCarriesCredential and BiliClient.LongTitleRefused |
| BiliClient.UploadedSubmitting | push/bilibili/client.py:110-141 | an upload that got as far as a manuscript is the transfer with the pusher's credential |
| BiliClient.UploadCarriesCredential | push/bilibili/client.py:167-185 | when a manuscript was submitted, the last request posts it; without a truthy access token its URL ends in `&csrf=` and the pusher's CSRF token (None as "None"); with one it is the app URL, whose query opens with `access_key=` and the token |
| BiliClient.Sent | push/bilibili/client.py:152-185 | from the multipart init on; stated by BiliClient.Send, the method it specifies |
| BiliClient.UploadSucceeds | push/bilibili/client.py:110-185 | a successful upload was logged in, had a title of at most 80 characters and got code 0 |
| BiliClient.TokenExpiryOnlyOnApp | push/bilibili/client.py:173-178 | an expired-token error arises only on the app endpoint, chosen by a truthy access token |
| BiliClient.LongTitleRefused | push/bilibili/client.py:125-133 | a title over 80 characters is refused after the login check and before any upload request: nothing is sent |
| BiliClient.Transfer | push/bilibili/client.py:141-185 | the requests of BiliClient.Transferred go through the session in order, appended to its record; `X-Upos-Auth` is installed exactly when the init was reached; the cookies are untouched |
| BiliClient.Send | push/bilibili/client.py:152-185 | the init, chunks, completion and submission: the requests of BiliClient.Sent are appended, `X-Upos-Auth` becomes the preupload's auth, the cookies are unchanged |
| BiliClient.SendFields | push/bilibili/client.py:142-158 | the fields of the accepted reply, then the requests of BiliClient.Accepted through the session |
| BiliClient.UploadAndSubmit | push/bilibili/client.py:155-185 | the chunk, completion and submission requests of BiliClient.Uploading are appended; headers and cookies unchanged |
| BiliClient.Submit | push/bilibili/client.py:167-185 | the manuscript is built and posted to the credential's URL as BiliClient.Submission says; headers and cookies unchanged |
| BiliClient.Pusher.constructor | push/bilibili/client.py:35-45 | the fields start empty and an empty cookie path means `cookie.json` |
| BiliClient.Pusher.ApplyCookie | push/bilibili/client.py:62-73 | with a session and cookies, the jar is replaced by the cookies and the page headers are added; otherwise nothing changes |
| BiliClient.Pusher.AdoptLogin | push/bilibili/client.py:48-51 | assigns the login result and applies the cookies when they are truthy |
| BiliClient.Pusher.Restore | push/bilibili/client.py:47-60 | the end of `__init__` computes the restore specification and applies cookies exactly when it says so |
| BiliClient.Pusher.AdoptLoaded | push/bilibili/client.py:53-60 | the cookie-file branch computes BiliClient.FromLoaded: cookies applied exactly when it says so, and nothing sent |
| BiliClient.Pusher.IsLoggedIn | push/bilibili/client.py:101-108 | the method computes the re-check specification |
| BiliClient.Pusher.Login | push/bilibili/client.py:75-99 | computes the login specification; the QR login's requests are appended to the session's record |
| BiliClient.Pusher.AdoptQrLogin | push/bilibili/client.py:92-99 | the four QR results are assigned and the login succeeds exactly when the cookies form a truthy dict, which then goes into the session |
| BiliClient.Pusher.Upload | push/bilibili/client.py:110-185 | returns the outcome and manuscript of BiliClient.Uploaded; the session's record grows by exactly its requests and its headers gain `X-Upos-Auth` from the init on; only the logged-in flag of the pusher changes; refused uploads leave the session untouched |
| Registry.Registry.constructor | push/__init__.py:36-44 | after import the registry holds the Bilibili pusher, or nothing when importing it fails |
| Registry.Registry.Register | push/__init__.py:10-15 | stores the class under the name, replacing an earlier one in place, and returns the class |
| Registry.Registry.RegisterBuiltin | push/__init__.py:36-41 | registers "bilibili" unless the import fails |
| Registry.Registry.GetPusher | push/__init__.py:18-27 | the method computes `Resolve` on the current table |
| Registry.Registry.ListPlatforms | push/__init__.py:30-32 | the registered names in registration order |
| Registry.Resolve | push/__init__.py:25-27 | succeeds iff the name is registered, instantiating its class with the keyword arguments; otherwise the error names the registered platforms |
| Registry.RegisterThenGet | push/__init__.py:13 | a registered name yields the class registered last; other names resolve as before |
| Registry.RegisterLists | push/__init__.py:13 | registering appends a new name to the platform list and keeps a known name's position |
| BrowserCookies.Usable | playwright_push/upload_bilibili.py:159-161 | a collected dict is kept iff SESSDATA and bili_jct are non-empty, unchanged |
| BrowserCookies.Normalized | playwright_push/upload_bilibili.py:137-161 | an item yields an account only when it is a non-empty dict and the account has the login cookies |
| BrowserCookies.NormalizeCookieItem | playwright_push/upload_bilibili.py:137-161 | the loops of `_normalize_cookie_item` compute the specification |
| BrowserCookies.FlatPairsNoMeta | playwright_push/upload_bilibili.py:153-158 | the flat layout never turns a metadata key into a cookie |
| BrowserCookies.NormalizedSkipsMeta | playwright_push/upload_bilibili.py:153-161 | a flat-layout account holds no `token_info`, `cookie_info`, `sso` or `platform` entry |
| BrowserCookies.FlatKeepsValue | playwright_push/upload_bilibili.py:154-158 | each non-None flat field ends as its stringified value, for the last field of that name |
| BrowserCookies.NormalizedAgreesWithClient | playwright_push/upload_bilibili.py:137-161 | one account object is read as the API client's `load_cookie_from_file` reads it, when it has no `cookie` entry or has a cookie list none of whose entries is named by a list or dict |
| BrowserCookies.ParseCookieField | playwright_push/upload_bilibili.py:203-212 | the loop over `cookie` string parts computes the specification and keeps only a usable account |
| BrowserCookies.PartStep | playwright_push/upload_bilibili.py:205-209 | one more part assigns its stripped pair or changes nothing |
| BrowserCookies.PartPairAgrees | playwright_push/upload_bilibili.py:205-209 | stripping a part then cutting at `=` gives the pair the API client gets |
| BrowserCookies.CookieFieldAgreesWithClient | playwright_push/upload_bilibili.py:203-212 | a trimmed `cookie` string gives the same account as the API client's cookie-string parser |
| BrowserCookies.RepairTrailingCommas | playwright_push/upload_bilibili.py:175 | the repair only removes characters |
| BrowserCookies.RepairWithoutCommas | playwright_push/upload_bilibili.py:175 | text without commas is unchanged |
| BrowserCookies.RepairKeepsOut | playwright_push/upload_bilibili.py:175 | the repair introduces no character the text did not hold |
| BrowserCookies.RepairDanglingComma | playwright_push/upload_bilibili.py:173-175 | `{"SESSDATA": "a", }` becomes `{"SESSDATA": "a"}` |
| BrowserCookies.RepairDropsOneCommaOfARun | playwright_push/upload_bilibili.py:175 | `,,}` becomes `,}`: only the last comma of a run is dropped |
| BrowserCookies.ValidAccounts | playwright_push/upload_bilibili.py:181-187 | a list keeps at most its length of accounts, each with the login cookies |
| BrowserCookies.CollectAccounts | playwright_push/upload_bilibili.py:182-186 | the loop computes the specification |
| BrowserCookies.ValidAccountsAllUsable | playwright_push/upload_bilibili.py:182-186 | a list of usable accounts keeps all of them in order |
| BrowserCookies.Single | playwright_push/upload_bilibili.py:199-200 | one usable account becomes a one-element list, none gives None |
| BrowserCookies.LoadedAccounts | playwright_push/upload_bilibili.py:164-221 | a file yields a non-empty list of accounts with login cookies, or None; no path or no file gives None |
| BrowserCookies.LoadCookiesFromFile | playwright_push/upload_bilibili.py:164-221 | the reading loops compute the specification |
| BrowserCookies.ListOfOneAccount | playwright_push/upload_bilibili.py:181-201 | wrapping one account object without a `cookie` string in a list changes nothing |
| BrowserCookies.FileAgreesWithClient | playwright_push/upload_bilibili.py:164-221 | a file the API client reads as one account gives the browser that same account |
| BrowserCookies.ConfiguredAccounts | playwright_push/upload_bilibili.py:241-255 | the configured accounts are non-empty and all have login cookies, or None |
| BrowserCookies.GetCookiesList | playwright_push/upload_bilibili.py:241-255 | the method computes the specification |
| BrowserCookies.ConfiguredListFirst | playwright_push/upload_bilibili.py:243-250 | a usable COOKIES_LIST shadows COOKIES_DICT and the cookie file |
| BrowserCookies.BrowserCookies | playwright_push/upload_bilibili.py:224-238 | every browser cookie is named, on `.bilibili.com` and path `/` |
| BrowserCookies.CookieDictToPlaywright | playwright_push/upload_bilibili.py:224-238 | the loop computes the specification |
| BrowserCookies.BrowserCookiesKeepNamed | playwright_push/upload_bilibili.py:229-237 | every named cookie reaches the browser with its value, in order |
| BrowserCookies.BrowserCookiesCarryLogin | playwright_push/upload_bilibili.py:229-237 | an account's login cookies are among those handed to the browser |
| BrowserPage.ContainsAny | playwright_push/upload_bilibili.py:288 | some listed phrase occurs in the text, as a chain of `in` tests reads |
| BrowserPage.ExpiredReadsOnlyTheHead | playwright_push/upload_bilibili.py:287-289 | only the first 2000 characters of the body decide whether the cookie has expired |
| BrowserPage.IsCookieExpired | playwright_push/upload_bilibili.py:281-293 | a passport or login URL, or a login prompt in the first 2000 characters of the body; stated by BrowserPage.ExpiredReadsOnlyTheHead |
| BrowserPage.AccountLimitPrecedence | playwright_push/upload_bilibili.py:303 | under Python precedence "已达上限" alone is a limit, "频率" alone is not, "频率限制" is |
| BrowserPage.IsAccountLimit | playwright_push/upload_bilibili.py:295-308 | the account-limit texts under Python precedence; stated by BrowserPage.AccountLimitPrecedence |
| BrowserPage.IsSubmitOk | playwright_push/upload_bilibili.py:310-317 | the page speaks of the manuscript, its review or its processing; used by BrowserUpload.AfterClicking |
| BrowserPage.LimitFirstTestSubsumed | playwright_push/upload_bilibili.py:299 | text with "投稿过于频繁" also holds "过于频繁", so the first test adds nothing |
| BrowserPage.HasCoverNotReadyPrompt | playwright_push/upload_bilibili.py:396-412 | true iff the text is non-empty and holds one of the seven cover prompts |
| BrowserPage.CoverPromptGuardRedundant | playwright_push/upload_bilibili.py:398-399 | the emptiness guard never changes the answer |
| BrowserPage.SubmitButton | playwright_push/upload_bilibili.py:319-331 | a button is found iff one of the two labels shows; "立即投稿" wins when it shows |
| BrowserPage.WaitUploadComplete | playwright_push/upload_bilibili.py:366-393 | true iff some look before the deadline shows the upload finished and not "上传中"; the first such look ends the wait |
| BrowserPage.UploadDone | playwright_push/upload_bilibili.py:380-390 | a look that ends the wait; stated by BrowserPage.WaitUploadComplete |
| BrowserPage.WaitTwoClean | playwright_push/upload_bilibili.py:471-490 | true iff two clean looks come in a row; the wait ends at the first such pair |
| BrowserPage.CoverImageClean | playwright_push/upload_bilibili.py:473-483 | a look is clean iff the body reads, shows no cover prompt and a cover image is there |
| BrowserPage.CoverTextClean | playwright_push/upload_bilibili.py:500-506 | a look is clean iff the body reads and shows no cover prompt |
| BrowserPage.WaitCoverImageVisible | playwright_push/upload_bilibili.py:461-490 | ready iff two looks in a row show a cover image and no cover prompt |
| BrowserPage.WaitCoverReady | playwright_push/upload_bilibili.py:493-512 | ready iff two looks in a row show no cover prompt |
| BrowserPage.PromptBreaksThePair | playwright_push/upload_bilibili.py:476-486 | a look with a prompt resets the count; two clean looks at the end still pass |
| BrowserPage.CheckInProgress | playwright_push/upload_bilibili.py:334-357 | true iff the page opens and some look shows "进行中"; any failure gives false |
| BrowserPage.FirstRow | playwright_push/upload_bilibili.py:574-591 | the first row that holds the title, cut to 1000 characters; none iff no row holds it |
| BrowserPage.Verdict | playwright_push/upload_bilibili.py:605-619 | a round passes iff the approved tab lists the exact title, and rejects iff only the not-approved tab lists it and its row is not under review |
| BrowserPage.UnderReview | playwright_push/upload_bilibili.py:614-617 | the row still says "审核中"; used by BrowserPage.Verdict |
| BrowserPage.HasArticle | playwright_push/upload_bilibili.py:554-572 | some title reads exactly the stripped, non-empty title; used by BrowserPage.Verdict |
| BrowserPage.WaitForAuditResult | playwright_push/upload_bilibili.py:594-623 | the loop computes the audit result over the rounds that fit in the time limit |
| BrowserPage.AuditResult | playwright_push/upload_bilibili.py:594-623 | the audit result over the rounds that fit; stated by BrowserPage.WaitForAuditResult, BrowserPage.AuditFirstDecisive and BrowserPage.AuditUndecidedTimesOut |
| BrowserPage.AuditFirstDecisive | playwright_push/upload_bilibili.py:604-619 | the first round that decides fixes the result |
| BrowserPage.AuditUndecidedTimesOut | playwright_push/upload_bilibili.py:604-623 | with no deciding round the result is "timeout" |
| BrowserPage.AuditRejectedWitness | playwright_push/upload_bilibili.py:612-619 | a rejection comes from some round that lists the video as not approved and not under review |
| BrowserPage.BlankTitleTimesOut | playwright_push/upload_bilibili.py:554-561 | a blank title is never found, so the poll can only time out |
| BrowserPage.SameTitleApprovedPasses | playwright_push/upload_bilibili.py:607-610 | any approved video with the same title makes the first round pass |
| BrowserUpload.SubmitClicks | playwright_push/upload_bilibili.py:826-850 | at most two clicks; the second only after a cover prompt and a button found again; a click on no button raises |
| BrowserUpload.SubmitClickLoop | playwright_push/upload_bilibili.py:826-850 | the loop computes the specification |
| BrowserUpload.CoverRetries | playwright_push/upload_bilibili.py:860-874 | at most two more clicks, none unless a cover prompt still shows and a button is found |
| BrowserUpload.CoverRetryLoop | playwright_push/upload_bilibili.py:860-874 | the loop computes the specification |
| BrowserUpload.AfterClicking | playwright_push/upload_bilibili.py:852-928 | published only when the account is not limited, the page confirms the submit, no cover prompt stays and "进行中" shows; the status is the audit result |
| BrowserUpload.VisitOutcome | playwright_push/upload_bilibili.py:697-939 | published only when nothing raised, the cookie is live, the upload finished, a button was found and the checks after the click pass; an expired cookie ends the visit |
| BrowserUpload.VisitAccount | playwright_push/upload_bilibili.py:697-939 | one pass of the account loop computes the specification |
| BrowserUpload.ReadinessWaitsNeverDecide | playwright_push/upload_bilibili.py:762-808 | the results of the cover waits never change how a visit ends |
| BrowserUpload.NoProgressMovesOn | playwright_push/upload_bilibili.py:886-905 | without "进行中" on the check or after the one resubmit, the visit does not publish |
| BrowserUpload.PublishedResult | playwright_push/upload_bilibili.py:907-928 | success iff the audit passed |
| BrowserUpload.Exhausted | playwright_push/upload_bilibili.py:941-951 | an "error" result, never a success, carrying the last DedeUserID |
| BrowserUpload.PublishFrom | playwright_push/upload_bilibili.py:697-951 | success iff the status is "passed"; the status is passed, rejected, timeout or error |
| BrowserUpload.PublishWithAccounts | playwright_push/upload_bilibili.py:697-951 | the account loop computes the specification |
| BrowserUpload.FirstPublishedWins | playwright_push/upload_bilibili.py:697-928 | the first account whose visit publishes decides the result, with its DedeUserID |
| BrowserUpload.DedeUserId | playwright_push/upload_bilibili.py:698 | `cookies.get("DedeUserID") or ""`; used by BrowserUpload.FirstPublishedWins |
| BrowserUpload.Outcomes | playwright_push/upload_bilibili.py:697-928 | how each account's visit ends; stated by BrowserUpload.PublishWithAccounts and BrowserUpload.FirstPublishedWins |
| BrowserUpload.FirstPublishedFrom | playwright_push/upload_bilibili.py:697-928 | the same from any starting account before the first published one |
| BrowserUpload.ExhaustedReportsLastCrash | playwright_push/upload_bilibili.py:931-951 | when no visit publishes, the result carries the last exception's text (or the all-failed message) and the last account's DedeUserID |
| BrowserUpload.LastCrash | playwright_push/upload_bilibili.py:931-951 | the error of the last visit that raised; stated by BrowserUpload.ExhaustedReportsLastCrash |
| BrowserUpload.ExhaustedFrom | playwright_push/upload_bilibili.py:931-951 | the same from any starting account |
| BrowserUpload.Shuffled | playwright_push/upload_bilibili.py:690 | the shuffle keeps the number of accounts |
| BrowserUpload.ShuffledIsPermutation | playwright_push/upload_bilibili.py:690 | the shuffle only reorders the accounts |
| BrowserUpload.SwapIsPermutation | playwright_push/upload_bilibili.py:690 | one swap of the shuffle keeps the multiset of accounts |
| BrowserUpload.Shuffle | playwright_push/upload_bilibili.py:690 | the swap loop computes the specification and keeps the multiset |
| BrowserUpload.CookieCandidates | playwright_push/upload_bilibili.py:659-664 | one or two distinct paths, the script's `cookie.json` last |
| BrowserUpload.FromCandidates | playwright_push/upload_bilibili.py:665-673 | the accounts, when found, are those some candidate file yields: non-empty, all with login cookies |
| BrowserUpload.LoadFromCandidates | playwright_push/upload_bilibili.py:665-673 | the loop computes the specification |
| BrowserUpload.MainAccounts | playwright_push/upload_bilibili.py:657-680 | the accounts, when found, are non-empty and all have login cookies |
| BrowserUpload.LoadAccounts | playwright_push/upload_bilibili.py:657-675 | the lookup computes the specification |
| BrowserUpload.Title | playwright_push/upload_bilibili.py:682-685 | the stripped argument or VIDEO_TITLE when non-blank, else the file name without extension |
| BrowserUpload.TitleNeverBlank | playwright_push/upload_bilibili.py:682-685 | a file with a stem always gets a non-empty title |
| BrowserUpload.PublishVideoResult | playwright_push/upload_bilibili.py:626-951 | no Playwright gives the import error at once; success iff the status is "passed" |
| BrowserUpload.PublishVideo | playwright_push/upload_bilibili.py:626-951 | `main` computes the specification |
| BrowserUpload.MainTriesEveryAccount | playwright_push/upload_bilibili.py:690-697 | whatever the shuffle draws, every account found is tried exactly once |
| ApiPush.RequestPaths | playwright_push/api_push.py:75-79 | at most one path per entry, each non-empty and already stripped |
| ApiPush.CollectPaths | playwright_push/api_push.py:75-79 | the loop computes the specification |
| ApiPush.RequestPathsEmpty | playwright_push/api_push.py:75-83 | no paths iff every entry strips to nothing |
| ApiPush.RequestPathsOfNames | playwright_push/api_push.py:75-79 | stripped non-blank string entries pass through unchanged, in order |
| ApiPush.IntOfText | playwright_push/api_push.py:88 | `int()` of a string succeeds only on non-blank text |
| ApiPush.IntOfTextRoundTrip | playwright_push/api_push.py:88 | `int(str(n)) == n` for every integer |
| ApiPush.DigitsText | playwright_push/api_push.py:88 | a non-empty run of decimal digits converts to its value |
| ApiPush.SignedDigitsText | playwright_push/api_push.py:88 | a minus sign before a non-empty run of digits converts to the negated value |
| ApiPush.IntOf | playwright_push/api_push.py:88 | integers convert to themselves; None, lists and dicts raise |
| ApiPush.RetryCount | playwright_push/api_push.py:88-90 | a missing `retry` means 1; a count exists only when `int()` succeeds |
| ApiPush.MaxAttempts | playwright_push/api_push.py:129 | at least one attempt and at least retry + 1 |
| ApiPush.AttemptsOfRetry | playwright_push/api_push.py:88-129 | a non-negative count gives count + 1 attempts, a negative one 2 |
| ApiPush.AttemptFrom | playwright_push/api_push.py:130-141 | after each attempt exactly one of the last result and the last error is set |
| ApiPush.RunAttempts | playwright_push/api_push.py:130-141 | the loop computes the specification |
| ApiPush.AttemptLoop | playwright_push/api_push.py:126-141 | the state after the attempt loop; stated by ApiPush.RunAttempts, ApiPush.FirstSuccessStops and ApiPush.NoSuccessKeepsLast |
| ApiPush.FirstSuccessStops | playwright_push/api_push.py:135-136 | the first successful attempt ends the loop with its result |
| ApiPush.SuccessFrom | playwright_push/api_push.py:130-141 | the same from any attempt before the first success |
| ApiPush.NoSuccessKeepsLast | playwright_push/api_push.py:130-141 | without a success the last attempt alone decides the result or the error |
| ApiPush.LastFrom | playwright_push/api_push.py:130-141 | the same from any starting attempt |
| ApiPush.MakeDataItem | playwright_push/api_push.py:144-154 | no result gives "error", an empty DedeUserID and the last exception's text; a result passes its status and reason |
| ApiPush.Answer | playwright_push/api_push.py:170-185 | code 0 iff the last result is passed or rejected, otherwise -200; a pass has no error reason, a rejection carries its reason |
| ApiPush.Decided | playwright_push/api_push.py:170 | a result whose audit is passed or rejected; used by ApiPush.Answer |
| ApiPush.UploadTitle | playwright_push/api_push.py:122-124 | the request's truthy title, else the merged file's stem |
| ApiPush.Handle | playwright_push/api_push.py:48-185 | the code is 0, -100 or -200, and 0 only for a passed or rejected audit; a missing, falsy or non-list `videos` answers -100 "缺少参数 videos", an all-blank list -100 "videos 不能为空", a failed merge -100 with "合并失败: " before the exception's text, and a successful merge the answer built from the attempts |
| ApiPush.BadRequestIff | playwright_push/api_push.py:70-115 | the answer is -100 exactly when `videos` is missing or not a list, strips to no path, or the merge raises |
| ApiPush.AllBlankRefused | playwright_push/api_push.py:75-83 | a list whose every entry strips to nothing is refused with -100 "videos 不能为空" |
| ApiPush.MergedAnswer | playwright_push/api_push.py:100-185 | after a successful merge the answer is the one built from the publish attempts under the request's title or the merged file's stem |
| ApiPush.NegativeRoundTrip | playwright_push/api_push.py:88 | `int(str(n)) == n` for every negative integer |
| ApiPush.PushPlaywrightBilibili | playwright_push/api_push.py:48-185 | the handler computes the specification |
| ApiPush.RejectedIsRetried | playwright_push/api_push.py:135-136 | a rejection is not a success, so a second attempt runs and is what gets reported |
| ApiPush.LastExceptionWins | playwright_push/api_push.py:130-185 | an exception in the last attempt discards earlier results: -200 with the exception's text |
| ApiPush.ErrorAnswer | playwright_push/api_push.py:144-185 | with no result and an exception recorded, the answer is -200 carrying the exception's text |
| ConcatList.Lines | merge_mp4_ffmpeg2.py:46 | the pieces between line breaks: at least one, none holding a break |
| ConcatList.LinesOfLine | merge_mp4_ffmpeg2.py:46 | text without a break is one line |
| ConcatList.LinesAtBreak | merge_mp4_ffmpeg2.py:46 | a `\n` ends a line and the rest is cut the same way |
| ConcatList.NonBlank | merge_mp4_ffmpeg2.py:46 | the kept lines are non-empty and stripped, no more than were read |
| ConcatList.Entry | merge_mp4_ffmpeg2.py:49-57 | a path comes only from a `file ` line and is never empty |
| ConcatList.Paths | merge_mp4_ffmpeg2.py:47-58 | at most one non-empty path per line |
| ConcatList.PathsAppend | merge_mp4_ffmpeg2.py:48-57 | each line is parsed on its own: the paths of a concatenation are the concatenated paths |
| ConcatList.ParseLines | merge_mp4_ffmpeg2.py:46-58 | the reading loop computes the specification |
| ConcatList.ValidLines | merge_mp4_ffmpeg.py:26 | the kept lines all start with `file ` and come from the input |
| ConcatList.MapEscape | merge_mp4_ffmpeg2.py:192 | each path with its single quotes escaped, one per path |
| ConcatList.MapRenderLine | merge_mp4_ffmpeg2.py:192-193 | one written line per path |
| ConcatList.EscapeNoBreak | merge_mp4_ffmpeg2.py:192 | escaping quotes adds no line break |
| ConcatList.RenderLineShape | merge_mp4_ffmpeg2.py:193 | a written line holds no break and is non-empty and stripped |
| ConcatList.LinesOfRender | merge_mp4_ffmpeg2.py:190-193 | the written text cuts back into its lines and a final empty piece |
| ConcatList.Render | merge_mp4_ffmpeg2.py:190-194 | the list file's content; stated by ConcatList.LinesOfRender and ConcatList.RenderRoundTrip |
| ConcatList.RenderLine | merge_mp4_ffmpeg2.py:192-194 | one list line with its quotes escaped; stated by ConcatList.RenderLineShape and ConcatList.EntryOfRenderLine |
| ConcatList.NonBlankOfRendered | merge_mp4_ffmpeg2.py:46 | dropping blanks from the written lines removes only the final empty piece |
| ConcatList.EntryOfRenderLine | merge_mp4_ffmpeg2.py:49-57 | reading a written line gives back its escaped path |
| ConcatList.PathsOfOne | merge_mp4_ffmpeg2.py:47-58 | a single line yields its entry |
| ConcatList.PathsOfRenderLines | merge_mp4_ffmpeg2.py:47-58 | reading the written lines gives the escaped paths in order |
| ConcatList.RenderRoundTrip | merge_mp4_ffmpeg2.py:179-195 | reading back a written list gives each path with its quotes escaped, in order |
| ConcatList.RenderRoundTripPlain | merge_mp4_ffmpeg2.py:179-195 | paths without quotes or breaks come back unchanged |
| ConcatList.LineModesAgree | merge_mp4_cv2.py:41 | iterating over the file and `splitlines` cut text with only `\n` and `\r` breaks the same way |
| ConcatList.TextAndFileListsAgree | merge_mp4_cv2.py:35-53 | the file reader and the content parser read the same paths from such text |
| ConcatList.ParseText | merge_mp4_ffmpeg2.py:41-58 | the content parser computes the specification; every path is non-empty |
| ConcatList.ParseFile | merge_mp4_cv2.py:35-53 | the file parser computes the specification; every path is non-empty |
| ConcatList.PathsNeedFileLines | merge_mp4_ffmpeg.py:22-27 | there are never more paths than `file ` lines |
| ConcatList.EmptyFileLineNamesNothing | merge_mp4_ffmpeg.py:26 | `file ''` passes the line check but names no path |
| ConcatList.RenderSnoc | merge_mp4_ffmpeg2.py:190-193 | writing one more path appends its line to the text |
| ConcatList.WriteList | merge_mp4_ffmpeg2.py:179-195 | the writing loop produces the rendered text |
| ConcatMerge.ReadValidLines | merge_mp4_ffmpeg.py:22-27 | every kept line is non-empty, stripped and starts with `file ` |
| ConcatMerge.AcceptedListMayNameNothing | merge_mp4_ffmpeg.py:41-47 | `file ''` passes the emptiness check although it names no path |
| ConcatMerge.MergeByConcatList | merge_mp4_ffmpeg.py:30-62 | a missing list raises FileNotFoundError, a list without `file` lines ValueError; otherwise ffmpeg runs the concat command on the absolute paths, and the result is the absolute output iff it exits 0; a call that raises (ffmpeg not found) raises that exception; a non-zero exit raises RuntimeError with its stderr or stdout |
| ConcatMerge.Exited0 | merge_mp4_ffmpeg.py:59-60 | the process ran and exited with 0; used by ConcatMerge.MergeByConcatList |
| ConcatMerge.ConcatCommand | merge_mp4_ffmpeg.py:50-58 | the ffmpeg concat command line; used by ConcatMerge.MergeByConcatList |
| ConcatMerge.Output | merge_mp4_ffmpeg.py:61 | `stderr or stdout` in the failure message; stated by ConcatMerge.MergeByConcatList |
| MergeFfmpeg.MergeByConcatList | merge_mp4_ffmpeg.py:30-62 | a missing list raises FileNotFoundError, a list without `file` lines ValueError; ffmpeg gets the concat command on absolute paths and the absolute output is returned iff it exits 0; a missing ffmpeg raises out of the call |
| MergeFfmpeg.OutputPath | merge_mp4_ffmpeg.py:85-88 | the literal default name goes to the script's tmp directory; any other path is used as given |
| MergeFfmpeg.OnlyTheLiteralDefaultMoves | merge_mp4_ffmpeg.py:86 | `./merged_output.mp4`, the same file named another way, is not moved |
| MergeFfmpeg2.LoadMapbinlist | merge_mp4_ffmpeg2.py:61-77 | a URL without requests raises RuntimeError, a missing file IOError; otherwise the fetched or read text is parsed |
| MergeFfmpeg2.DigestInputsDiffer | merge_mp4_ffmpeg2.py:90-98 | different non-empty lists of newline-free paths give different digest inputs, so the name is as unique as MD5 |
| MergeFfmpeg2.DefaultOutputBasename | merge_mp4_ffmpeg2.py:90-98 | the MD5 digest of the paths joined by newlines; stated by MergeFfmpeg2.DigestInputsDiffer and MergeFfmpeg2.OutputPath |
| MergeFfmpeg2.OutputPath | merge_mp4_ffmpeg2.py:464-468 | a given output is made absolute; otherwise `<digest>.mp4` in the work directory |
| MergeFfmpeg2.BasenameFromPath | merge_mp4_ffmpeg2.py:123-128 | the name is never empty and holds no `/` |
| MergeFfmpeg2.SplitLastNonEmpty | merge_mp4_ffmpeg2.py:126-127 | after the trailing slashes are stripped, the last segment of a non-empty URL part is non-empty |
| MergeFfmpeg2.WithMp4 | merge_mp4_ffmpeg2.py:160-161 | the name ends in `.mp4` in some case; one that already does is unchanged, otherwise `.mp4` is appended |
| MergeFfmpeg2.Mp4Base | merge_mp4_ffmpeg2.py:159-161 | a non-empty name without `/` ending in `.mp4` |
| MergeFfmpeg2.LocalName | merge_mp4_ffmpeg2.py:162 | a plain file name ending in `.mp4` |
| MergeFfmpeg2.FirstUnderscore | merge_mp4_ffmpeg2.py:162 | the index's digits hold no `_`, so the first `_` separates index and name |
| MergeFfmpeg2.LocalNamesDistinct | merge_mp4_ffmpeg2.py:158-165 | different positions always get different local names |
| MergeFfmpeg2.FirstNameIsUnpadded | merge_mp4_ffmpeg2.py:150-162 | the first name is `0_<base>`, not the `000_<base>` the docstring promises |
| MergeFfmpeg2.LocalNames | merge_mp4_ffmpeg2.py:156-165 | one local name per entry |
| MergeFfmpeg2.LocalNamesAt | merge_mp4_ffmpeg2.py:158-165 | the `k`-th local name is that of the `k`-th entry |
| MergeFfmpeg2.Tasks | merge_mp4_ffmpeg2.py:156-164 | one task per entry |
| MergeFfmpeg2.TasksAt | merge_mp4_ffmpeg2.py:158-164 | the `k`-th task fetches the `k`-th entry to its local name in the directory |
| MergeFfmpeg2.PrepareVideosToDir | merge_mp4_ffmpeg2.py:147-169 | the loop computes both lists: one task and one name per entry, in list order |
| MergeFfmpeg2.DestinationsDistinct | merge_mp4_ffmpeg2.py:158-165 | no two tasks share a destination, even for URLs with the same last segment |
| MergeFfmpeg2.InDir | merge_mp4_ffmpeg2.py:191 | each name joined to the directory |
| MergeFfmpeg2.WriteLocalConcatList | merge_mp4_ffmpeg2.py:179-195 | the list is written in the work directory, naming every local file by its absolute path; its absolute path is returned |
| MergeFfmpeg2.JoinPlain | merge_mp4_ffmpeg2.py:191 | joining quote- and break-free parts gives a quote- and break-free path |
| MergeFfmpeg2.WrittenListReadsBack | merge_mp4_ffmpeg2.py:179-195 | reading the written list back gives the absolute paths of the local files in order |
| MergeFfmpeg2.MergeByConcatList | merge_mp4_ffmpeg2.py:197-228 | as the other ffmpeg script, but a missing list raises IOError; a missing ffmpeg raises out of `Popen` |
| MergeCv2.DownloadFrom | merge_mp4_cv2.py:63-83 | between `attempt` and `max_retries` calls are made, sleeping `attempt + 1`, `attempt + 2`, … seconds between them |
| MergeCv2.DownloadFromUrl | merge_mp4_cv2.py:55-85 | the retry loop computes the specification |
| MergeCv2.RetryStep | merge_mp4_cv2.py:63-76 | a connection error before the last attempt sleeps `attempt + 1` seconds and continues with the next attempt |
| MergeCv2.DownloadFromOutcome | merge_mp4_cv2.py:63-83 | only SSL and connection errors are retried; the call succeeds iff its last request saved the file; another exception ends it at once; a last connection failure raises RuntimeError when certificates are checked, else itself |
| MergeCv2.DownloadOutcome | merge_mp4_cv2.py:55-85 | the whole call makes 1 to `max_retries` requests, sleeping 1, 2, … seconds between them, with the outcomes above |
| MergeCv2.Download | merge_mp4_cv2.py:55-85 | `download_from_url`: RuntimeError without requests, nothing with no attempt, else the retry loop; stated by MergeCv2.DownloadOutcome, MergeCv2.NoAttemptsNoError and MergeCv2.DownloadFromUrl |
| MergeCv2.SleepsBefore | merge_mp4_cv2.py:76-77 | the pauses are 1, 2, …, n seconds |
| MergeCv2.NoAttemptsNoError | merge_mp4_cv2.py:84-85 | with no attempt allowed nothing is requested and the dead `raise last_err` is never reached |
| MergeCv2.UrlName | merge_mp4_cv2.py:91-93 | the local name of a URL is non-empty and holds no `/` |
| MergeCv2.ResolvePath | merge_mp4_cv2.py:88-99 | a URL is saved in the temporary directory under its URL name; a local path is kept iff it is a file, else FileNotFoundError |
| MergeCv2.DownloadedIntoTempDir | merge_mp4_cv2.py:91-96 | a downloaded entry's file name is its URL name |
| MergeCv2.Resolved | merge_mp4_cv2.py:210-212 | a resolved list has one path per entry |
| MergeCv2.ResolvedEntries | merge_mp4_cv2.py:210-212 | each resolved path is what `resolve_path` gives its entry; a failure is some entry's exception |
| MergeCv2.ResolveAll | merge_mp4_cv2.py:210-212 | the loop computes the specification |
| MergeCv2.PrefixErr | merge_mp4_cv2.py:210-212 | once a prefix fails, the whole list fails with that exception |
| MergeCv2.ContainerRule | merge_mp4_cv2.py:222-224 | after the first rule the path ends in .mp4, .avi or .mkv |
| MergeCv2.LosslessRule | merge_mp4_cv2.py:225-226 | the lossless rule gives an .avi path |
| MergeCv2.OutputExtension | merge_mp4_cv2.py:222-226 | the output always ends in one of the three containers, in .avi when lossless; an accepted lossy path is kept |
| MergeCv2.OutputPath | merge_mp4_cv2.py:222-226 | the output rules; stated by MergeCv2.OutputExtension |
| MergeCv2.ContainerPath | merge_mp4_cv2.py:222-224 | the first output rule; stated by MergeCv2.ContainerRule |
| MergeCv2.WritePath | merge_mp4_cv2.py:229-233 | frames go to `video_only.mp4` in the temporary directory iff audio is added to a lossy merge, else to the output |
| MergeCv2.Mux | merge_mp4_cv2.py:127-171 | the audio list sits beside the video-only file; the audio concat runs first; the mux command runs only if it exits 0; the output is returned iff both exit 0; the function raises iff the last command started raises (ffmpeg not found), with that exception |
| MergeCv2.AudioCommand | merge_mp4_cv2.py:147-155 | the audio concat command line; used by MergeCv2.Mux |
| MergeCv2.MuxCommand | merge_mp4_cv2.py:159-167 | the mux command line; used by MergeCv2.Mux |
| MergeCv2.MuxAudioWithFfmpeg | merge_mp4_cv2.py:127-171 | the function with its writing loop computes the specification |
| MergeCv2.AudioListFollowsSegments | merge_mp4_cv2.py:137-145 | the audio list sits beside the video-only file and reads back as the segments in order |
| MergeCv2.FirstUnopened | merge_mp4_cv2.py:243-247 | the first path that does not open, none iff all open |
| MergeCv2.MergeBody | merge_mp4_cv2.py:209-275 | a success returns the absolute adjusted output; a mux happens only for a lossy merge with audio that got that far, and then the merge succeeds iff the mux did not raise, else it raises the mux's exception |
| MergeCv2.MergeMp4Cv2 | merge_mp4_cv2.py:174-281 | the list errors are FileNotFoundError and ValueError; a temporary directory is removed iff this call made it; a success is the absolute adjusted output; an exception of the audio mux's ffmpeg call is raised |
| MergeCv2.LossyMergeMuxes | merge_mp4_cv2.py:229-269 | a lossy merge with audio whose segments all open always attempts the mux, and succeeds with the absolute output iff the mux does not raise |
| MergeCv2.MainOutput | merge_mp4_cv2.py:331-334 | the literal default output becomes that name joined to the script's tmp directory; any other output is kept as given |
| MergeCv2.VerifySsl | merge_mp4_cv2.py:327-329 | certificates are checked unless `--no-verify-ssl` is given or INSECURE_SSL is 1, true or yes |
| MergeMoviepy.ResolvePath | merge_mp4_moviepy.py:56-65 | a URL is saved once into the temporary directory under its URL name, and succeeds iff the download does; a local path is kept iff it is a file, else FileNotFoundError |
| MergeMoviepy.UrlNameKept | merge_mp4_moviepy.py:59-62 | a downloaded entry's file name is its URL name |
| MergeMoviepy.Resolved | merge_mp4_moviepy.py:98-100 | a resolved list has one path per entry |
| MergeMoviepy.LocalFilesResolveToThemselves | merge_mp4_moviepy.py:98-100 | a list of existing local files resolves to itself |
| MergeMoviepy.ResolvedEntry | merge_mp4_moviepy.py:98-100 | each resolved path is what `resolve_path` gives its entry |
| MergeMoviepy.PrefixErr | merge_mp4_moviepy.py:98-100 | once a prefix fails, the whole list fails with that exception |
| MergeMoviepy.ResolveAll | merge_mp4_moviepy.py:98-100 | the loop computes the specification |
| MergeMoviepy.FirstClipError | merge_mp4_moviepy.py:102-105 | no error iff every clip opens; otherwise some clip's error |
| MergeMoviepy.OpenClips | merge_mp4_moviepy.py:102-105 | the loop computes the specification |
| MergeMoviepy.MergeBody | merge_mp4_moviepy.py:97-120 | success iff every entry resolves, every clip opens and the write succeeds; it returns the absolute output |
| MergeMoviepy.MergeMp4FromList | merge_mp4_moviepy.py:68-126 | the list errors are FileNotFoundError and ValueError; a temporary directory is removed iff this call made it; a success is the absolute output |
| MergeMoviepy.MergeFromList | merge_mp4_moviepy.py:68-126 | the function as run computes the specification |
| MergeMoviepy.CallerDirectoryKept | merge_mp4_moviepy.py:93-95 | a directory the caller passed in is never removed |
| MergeMoviepy.MainOutput | merge_mp4_moviepy.py:156-159 | the literal default output becomes that name joined to the script's tmp directory; any other output is kept as given |
| BatchPush.DownloadName | test_playwright_push_videos.py:62-64 | the saved name is non-empty, holds no `/` and ends in `.mp4` in some case |
| BatchPush.NoSlashWithMp4 | test_playwright_push_videos.py:63-64 | appending `.mp4` to a name without `/` adds none |
| BatchPush.EnsureLocalPathAsWritten | test_playwright_push_videos.py:50-74 | as written, the only exception is a failed download of a URL whose file is not there yet |
| BatchPush.EnsureLocalPath | test_playwright_push_videos.py:50-74 | None for an empty entry; a local entry's absolute path iff it is a file; a URL's absolute save path unless its file is missing and the download fails, then None |
| BatchPush.FetchedPath | test_playwright_push_videos.py:65-69 | a URL's absolute save path unless its file is missing and the download fails |
| BatchPush.FailedDownloadRaises | test_playwright_push_videos.py:66-68 | a URL whose file is missing and whose download fails raises as written and is skipped as intended |
| BatchPush.AgreesUnlessDownloadFails | test_playwright_push_videos.py:50-74 | wherever the code does not raise, the corrected function returns what it returns |
| BatchPush.ResultOf | test_playwright_push_videos.py:93-101 | with the corrected `_ensure_local_path` (a failed download skips), an entry is skipped iff it has no local file; otherwise it is published under its file's stem |
| BatchPush.ResultOfAsWritten | test_playwright_push_videos.py:93-101 | as written, an entry raises iff its download raises, with that exception; otherwise its line is the corrected one |
| BatchPush.Results | test_playwright_push_videos.py:91-104 | one result per entry |
| BatchPush.ResultsAt | test_playwright_push_videos.py:92-101 | the `k`-th result is that of the `k`-th entry |
| BatchPush.PublishAll | test_playwright_push_videos.py:91-104 | the loop computes the specification |
| BatchPush.CollectIff | test_playwright_push_videos.py:91-104 | a loop that lets an entry's exception escape raises iff some entry raises, and otherwise holds each entry's line at its index |
| BatchPush.AsWrittenRaisesIff | test_playwright_push_videos.py:91-104 | the loop as written raises iff some entry's download raises, and otherwise gives the corrected lines |
| BatchPush.Collect | test_playwright_push_videos.py:91-104 | a loop that lets an entry's exception escape; stated by BatchPush.CollectIff |
| BatchPush.ResultsAsWritten | test_playwright_push_videos.py:91-104 | the loop as written; stated by BatchPush.AsWrittenRaisesIff and BatchPush.RunScriptAsWritten |
| BatchPush.LinesAt | test_playwright_push_videos.py:91-104 | a loop that appends one line per entry holds each entry's line at its index |
| BatchPush.ExitRule | test_playwright_push_videos.py:107-122 | the successes never exceed the attempts, and fall short iff some attempted upload failed |
| BatchPush.SuccessCount | test_playwright_push_videos.py:107 | the published lines whose upload succeeded; stated by BatchPush.ExitRule |
| BatchPush.Attempted | test_playwright_push_videos.py:121 | the lines that are not None; stated by BatchPush.ExitRule |
| BatchPush.RunScript | test_playwright_push_videos.py:77-122 | with the corrected `_ensure_local_path`, the script never crashes: a missing list and an empty list stop early; otherwise one result per entry and exit 1 iff some attempted upload failed |
| BatchPush.RunScriptAsWritten | test_playwright_push_videos.py:77-122 | as written, a missing list and an empty list stop early; the script crashes iff some entry's download raises, and otherwise ends exactly as the corrected script |
| FirstFrameFfmpeg.Ext | cut_video_first_frame/first_frame_ffmpeg.py:54 | "jpg" iff the format is jpg or jpeg in any case, otherwise "png" |
| FirstFrameFfmpeg.FrameArgs | cut_video_first_frame/first_frame_ffmpeg.py:33-41 | one frame of the input, overwriting; the even-size scale filter when needed; quality 2 and the output last |
| FirstFrameFfmpeg.FrameOutcome | cut_video_first_frame/first_frame_ffmpeg.py:43-50 | the absolute output iff ffmpeg runs and exits 0; a call that raises (ffmpeg not found, the 30-second timeout) raises that exception; a non-zero exit raises RuntimeError with the stripped stderr or the exit code |
| FirstFrameFfmpeg.FailureDetail | cut_video_first_frame/first_frame_ffmpeg.py:47-49 | the stripped stderr, or the exit code when it is blank; used by FirstFrameFfmpeg.FrameOutcome |
| FirstFrameFfmpeg.CaptureFirstFrameFfmpeg | cut_video_first_frame/first_frame_ffmpeg.py:32-50 | the list built in place is the specified argument list, and the outcome is the specified one |
| FirstFrameFfmpeg.FrameBase | cut_video_first_frame/first_frame_ffmpeg.py:75-76 | never empty: the stem unless it is empty or still ends in `.mp4`, then "frame" |
| FirstFrameFfmpeg.StemHasNoSlash | cut_video_first_frame/first_frame_ffmpeg.py:72-74 | a stem never holds `/` |
| FirstFrameFfmpeg.PrefixHasNoSlash | cut_video_first_frame/first_frame_ffmpeg.py:74 | a prefix of a slash-free name is slash-free |
| FirstFrameFfmpeg.DefaultOutputShape | cut_video_first_frame/first_frame_ffmpeg.py:70-77 | the default image sits in the tmp directory, is named `<base>_first_frame.<ext>` after the source and ends with `.<ext>` |
| FirstFrameFfmpeg.DefaultOutput | cut_video_first_frame/first_frame_ffmpeg.py:70-77 | the default image path; stated by FirstFrameFfmpeg.DefaultOutputShape |
| FirstFrameFfmpeg.DefaultName | cut_video_first_frame/first_frame_ffmpeg.py:75-77 | `<base>_first_frame.<ext>`; stated by FirstFrameFfmpeg.NameInDir and FirstFrameFfmpeg.DefaultOutputShape |
| FirstFrameFfmpeg.UrlStem | cut_video_first_frame/first_frame_ffmpeg.py:71-73 | a URL's stem; stated by FirstFrameMoviepy.UrlStemOfPlainUrl |
| FirstFrameFfmpeg.FrameBaseHasNoSlash | cut_video_first_frame/first_frame_ffmpeg.py:75-76 | the base stays slash-free |
| FirstFrameFfmpeg.NameInDir | cut_video_first_frame/first_frame_ffmpeg.py:77 | the joined file keeps its name as basename and ends with `.<ext>` |
| FirstFrameFfmpeg.CaptureFirstFrame | cut_video_first_frame/first_frame_ffmpeg.py:53-87 | a URL's temporary file is removed on every path; ffmpeg runs exactly when a local source is a file, or for a URL when requests is present and the download did not raise; a missing local file raises FileNotFoundError, a URL without requests RuntimeError, a failed download its own exception; otherwise ffmpeg gets the specified arguments for the stripped or default output |
| FirstFrameFfmpeg.EvenSizeForJpg | cut_video_first_frame/first_frame_ffmpeg.py:39-40 | the scale filter is added iff the format is jpg or jpeg or the output ends in `.jpg` |
| FirstFrameFfmpeg.NeedsEvenSize | cut_video_first_frame/first_frame_ffmpeg.py:39-40 | whether the scale filter is added; stated by FirstFrameFfmpeg.EvenSizeForJpg |
| FirstFrameMoviepy.TempNameLeaks | cut_video_first_frame/first_frame_moviepy.py:53-57 | as written, a URL's default name differs from the intended one whenever the temporary file's stem gives another base |
| FirstFrameMoviepy.DefaultOutputAsWritten | cut_video_first_frame/first_frame_moviepy.py:53-57 | the default output as written, named after the file the frame is read from; stated by FirstFrameMoviepy.TempNameLeaks and FirstFrameMoviepy.TempNameExample |
| FirstFrameMoviepy.DefaultOutput | cut_video_first_frame/first_frame_moviepy.py:35 | the default output named after the source; stated by FirstFrameMoviepy.SourceNameExample and FirstFrameMoviepy.SameNameAsFfmpegScript |
| FirstFrameMoviepy.SameNameSameBase | cut_video_first_frame/first_frame_moviepy.py:57 | two default names are equal only when their bases are |
| FirstFrameMoviepy.BasenameAfterSlash | cut_video_first_frame/first_frame_moviepy.py:54 | the basename of `a/b` is `b` when `b` holds no `/` |
| FirstFrameMoviepy.TempStem | cut_video_first_frame/first_frame_moviepy.py:54 | the stem of `/tmp/tmpk2j.mp4` is `tmpk2j` |
| FirstFrameMoviepy.UrlStemOfPlainUrl | cut_video_first_frame/first_frame_ffmpeg.py:71-73 | a URL without query or trailing slash has the stem of its last segment |
| FirstFrameMoviepy.ClipFileStem | cut_video_first_frame/first_frame_moviepy.py:54 | the stem of `http://h/clip.mp4` is `clip` |
| FirstFrameMoviepy.ClipStem | cut_video_first_frame/first_frame_ffmpeg.py:71-73 | the URL stem of `http://h/clip.mp4` is `clip` |
| FirstFrameMoviepy.TempNameExample | cut_video_first_frame/first_frame_moviepy.py:53-57 | as written, `http://h/clip.mp4` saved to `/tmp/tmpk2j.mp4` gets `tmpk2j_first_frame.png` |
| FirstFrameMoviepy.SourceNameExample | cut_video_first_frame/first_frame_moviepy.py:35 | as documented, the same source gets `clip_first_frame.png` |
| FirstFrameMoviepy.LocalSourceUnaffected | cut_video_first_frame/first_frame_moviepy.py:53-57 | for a local file the written and the intended names agree |
| FirstFrameMoviepy.SameNameAsFfmpegScript | cut_video_first_frame/first_frame_moviepy.py:53-57 | the intended name is the file name the ffmpeg script gives the same source and format |
| FirstFrameMoviepy.CaptureFirstFrame | cut_video_first_frame/first_frame_moviepy.py:31-68 | with the corrected default output (named after the source), a URL's temporary file is removed on every path; a missing local file raises FileNotFoundError; a fetched video is saved to the explicit or default output, whose absolute path is returned unless the clip raises |
| FirstFrameMoviepy.Fetched | cut_video_first_frame/first_frame_moviepy.py:39-51 | a URL is read from its temporary file unless the download raises; a local source is read in place when it is a file, else FileNotFoundError with the path |
| FirstFrameMoviepy.CaptureFirstFrameAsWritten | cut_video_first_frame/first_frame_moviepy.py:31-68 | as written: the same removal, outputs and errors, with the default output named after the file the frame is read from |
| FirstFrameMoviepy.CaptureDiffersOnlyForUrlDefault | cut_video_first_frame/first_frame_moviepy.py:53-57 | with an explicit output, or for a local source, the written and the corrected captures agree |
| FirstFrameMoviepy.CaptureAsWrittenUsesTempName | cut_video_first_frame/first_frame_moviepy.py:53-57 | as written, a downloaded URL's frame is saved under another name than the corrected one whenever the temporary file's stem gives another base |
| FirstFrameMoviepy.DefaultNameIgnoresTemp | cut_video_first_frame/first_frame_moviepy.py:35 | two runs on the same URL get the same default output whatever temporary files they use |

## Notes

- `playwright_push/upload_bilibili.py:554-571`: the audit poll matches a video by its exact title, so another approved video with the same title counts as this one (BrowserPage.SameTitleApprovedPasses).
- `merge_mp4_ffmpeg2.py:150` documents local names `000_…`, `001_…`; the code writes `{i}_…` without padding (`merge_mp4_ffmpeg2.py:162`). The model follows the code (MergeFfmpeg2.FirstNameIsUnpadded). Ordering does not depend on the names, because the list file is written in list order.
- `merge_mp4_ffmpeg.py:41-47` and `merge_mp4_ffmpeg2.py:208-212` accept any line that starts with `file `, so a list of `file ''` lines passes the check and names nothing (ConcatMerge.AcceptedListMayNameNothing).
- `merge_mp4_cv2.py:84-85`: the `raise last_err` after the retry loop can never run (MergeCv2.NoAttemptsNoError).
- `push/bilibili/client.py:145-148`: a `biz_id` of 0 is falsy, so the `or` falls through to `bizId`, and the reply counts as missing its fields (BiliClient.PreuploadFields).
- A `retry` below zero becomes 1, so it gives two attempts rather than one (ApiPush.AttemptsOfRetry).

## Left out

- Transport settings of the session (`trust_env`, proxies, timeouts) change no modelled value. A transport error is the `Raised` exchange.
- The QR-code image and the printed login link (`push/bilibili/auth.py:161-173`) are output only.
- Logging, `print`, the Feishu webhook notifications and `atexit` browser clean-up are side output and are not modelled.
- Time: deadlines and poll intervals are modelled as the finite sequence of looks that fit before the deadline. `duration_sec`, elapsed times and their rounding are not modelled.
- Randomness: `random.shuffle` is modelled with its draws as a parameter. `mkstemp`, `mkdtemp` and the timestamped work directory are parameters. Python's `hash()` is a parameter.
- The MD5 digest is a parameter `md5: string -> string`, so uniqueness of the default output is proved only up to the digest's own collisions.
- Browser driving: clicks, keypresses, scrolling, `page.evaluate` scripts and the visibility setting (`_set_visibility_only_self`) are left out, and so is `_ensure_cover_from_first_frame`. `main` ignores their results; their exceptions are the `Crash` stages of a visit. What `_has_cover_image_in_dom` answers is an input of each look.
- `_page_has_article_with_title` compares titles after a JavaScript `trim`; the model compares with the stripped title.
- BrowserUpload.PublishVideoResult: `POLL_AUDIT` is fixed at its configured value True, so the "submitted" status that a disabled audit poll would give is not modelled. The browser is assumed to start: a failure of `sync_playwright()` or `chromium.launch` (`playwright_push/upload_bilibili.py:693-694`) raises out of `main`, and the model has no such outcome.
- BrowserUpload.PublishVideo: like BrowserUpload.PublishVideoResult, it assumes `sync_playwright()` and `chromium.launch` succeed; their exceptions escape `main` in Python.
- BrowserCookies.BrowserCookies: the cookie values are given to the browser as Python strings. A non-string value in `COOKIES_DICT` is not modelled.
- Text.Lower: ASCII case folding only; other characters are left as they are.
- ApiPush.IntOfText: `int()` of a string with underscores or non-ASCII digits is not accepted, although Python accepts both.
- ApiPush.Handle: a body that is not JSON, or is falsy, is read as `{}`. A truthy body that is not an object, and a `retry` that `int()` rejects, make Flask answer with an internal error; the model names that outcome without its HTTP details. The `except` at `playwright_push/api_push.py:66-68` cannot run, because `silent=True` turns a parse failure into None.
- JSON numbers are integers only: PyJson.Json has no floating-point case. Three Python behaviours are therefore not modelled: `int(2.0)` accepting a float `retry`, a float `videos` entry stringified as "1.5", and a float chunk size failing in `f.read`.
- The `reencode` flag (`playwright_push/api_push.py:92`) is read and handed to the merge, which is not part of this model. The `merge` parameter does not depend on it.
- `_remove_merged_file` (`playwright_push/api_push.py:156-168`) deletes the merged file and its `merge_api_` directory before each answer. It is file-system clean-up that changes no answer, and it is not modelled.
- `merge_paths_to_one`, which `playwright_push/api_push.py:101` imports, is not part of this model. The merge is a parameter returning the merged path or the exception's text.
- The fetches of `_prepare_videos_to_dir` run in a thread pool (`merge_mp4_ffmpeg2.py:167-175`). Only their destinations and names are modelled, not the concurrent copies.
- `fix_timestamps_remux`, `fix_timestamps_reencode`, `_check_reencode_encoders`, `_ffmpeg_stderr_text` and the rest of `merge_mp4_ffmpeg2.py`'s `main` are codec probing and re-encoding. They are external tools and are not modelled.
- Frame decoding and encoding with OpenCV and MoviePy (`get_video_props`, the frame loop, `concatenate_videoclips`) are left out. The model keeps only whether each step opens or raises. The fps clamp is floating point and is left out.
- PathOps.AbsPath: it joins a relative path to the working directory without normalising `.` and `..`.
- FirstFrameFfmpeg.FrameOutcome: stderr is taken as already decoded text; Python decodes the captured bytes as UTF-8, replacing invalid sequences.
- `os.makedirs` of the tmp directories is assumed to succeed.
- The `main` functions of the first-frame scripts only parse arguments, print and exit, so they are not modelled. The same holds for the argument parsing of the merge scripts beyond their output-path rules, and for the missing-dependency exit of `first_frame_moviepy.py:13-18`.
- `BilibiliPusher.__init__` (`push/bilibili/client.py:35-60`) is modelled in two steps: BiliClient.Pusher.constructor sets the fields, then BiliClient.Pusher.Restore restores the login. A constructor here cannot call a method that changes the object.
- BiliClient.PreuploadFields: a non-string `upos_uri` or `auth`, and a truthy chunk size that is neither an integer nor `true` (a string, a list, an object), are reported as `MalformedFields` before the multipart init. Python sends the init first and fails later, in `float()`, `f.read` or the request; with an empty file and a numeric-string chunk size it even completes with no parts. Negative and `true` chunk sizes are modelled.
- BatchPush.ResultOf: it uses the corrected `_ensure_local_path`, so a failed download skips the entry. The code as written is BatchPush.ResultOfAsWritten (see Findings).
- BatchPush.RunScript: it uses the corrected `_ensure_local_path` and never crashes. The code as written is BatchPush.RunScriptAsWritten, which crashes on a failed download (see Findings).
- FirstFrameMoviepy.CaptureFirstFrame: it names the default output after the source. The code as written is FirstFrameMoviepy.CaptureFirstFrameAsWritten, which names it after the temporary file (see Findings).
- BiliUpload.ChunkCount: it is the exact integer ceiling. Python computes `math.ceil(filesize / float(chunk_size))` in floating point, which can differ from it only for file sizes above 2^53 bytes.
- BiliUpload.SubmitAddByApp: the per-request `User-Agent` header of the app posts is not recorded; a recorded request holds its URL and its JSON body only.
- The cookie domain `.bilibili.com` passed to `session.cookies.set` is not modelled: the jar is a name-to-value dict.
- BiliAuth.LoadedCookies: the file is taken as readable text. Content the default encoding cannot decode raises out of `load_cookie_from_file` (`push/bilibili/auth.py:40-41`, outside the `try`), which the model does not express. A `cookie_info` entry named by a list or dict is modelled (the TypeError is caught, giving (None, None)); one named by a number or a boolean gets the stringified name as key, where Python keeps the non-string key.
- BiliAuth.LoadCookieFromFile: the same two gaps as BiliAuth.LoadedCookies: an undecodable file, and a number or boolean cookie name kept as a non-string key.
- BrowserCookies.NormalizeCookieItem: a `cookie_info` entry named by a list or dict raises TypeError out of `_normalize_cookie_item` (`playwright_push/upload_bilibili.py:148`); the model stringifies the name instead. A number or boolean name is stringified, where Python keeps the non-string key.
- BrowserCookies.Normalized: the same as BrowserCookies.NormalizeCookieItem: an unhashable name raises in Python and is stringified here.
- BrowserCookies.LoadedAccounts: an unhashable cookie name (`playwright_push/upload_bilibili.py:184,198`) raises out of `load_cookies_from_file`, and so does content that is not valid UTF-8 (`playwright_push/upload_bilibili.py:168-169`, outside the `try`). The model has no raised outcome there: it stringifies the name and takes the file as decoded text.
- BrowserCookies.LoadCookiesFromFile: the same two gaps as BrowserCookies.LoadedAccounts.
- MergeFfmpeg2.MergeByConcatList: `Popen` captures bytes, so Python's RuntimeError message holds the bytes' `repr` (`b'...'` with escapes); the model puts the decoded text. A missing ffmpeg is modelled: the call raises.

## Findings

| source | as written | input that shows it | evidently intended | confidence | as-written member | corrected member |
|---|---|---|---|---|---|---|
| test_playwright_push_videos.py:66-68 | `_ensure_local_path` lets the download's exception escape, which ends the whole batch (BatchPush.FailedDownloadRaises, BatchPush.RunScriptAsWritten) | a URL entry whose file is not yet in the tmp directory, with a download that raises (e.g. HTTP 404) | return None, so `main` skips the entry as its message "非本地文件或下载失败" at line 96 says | not executed | BatchPush.EnsureLocalPathAsWritten | BatchPush.EnsureLocalPath |
| cut_video_first_frame/first_frame_moviepy.py:53-57 | for a URL, the default image is named after the random temporary file, not the source (FirstFrameMoviepy.TempNameLeaks, FirstFrameMoviepy.TempNameExample, FirstFrameMoviepy.CaptureAsWrittenUsesTempName) | source `http://h/clip.mp4`, saved by `mkstemp` to `/tmp/tmpk2j.mp4`, gives `tmpk2j_first_frame.png` | name it after the source (`clip_first_frame.png`), as the docstring at line 35 says and as `first_frame_ffmpeg.py:71-72` does (FirstFrameMoviepy.SourceNameExample, FirstFrameMoviepy.SameNameAsFfmpegScript) | not executed | FirstFrameMoviepy.DefaultOutputAsWritten | FirstFrameMoviepy.DefaultOutput |
