/**
 * Cookies of the browser publisher: one account's cookie object normalised to a
 * name-to-value dict, a cookie file that may hold several accounts, the accounts
 * configured in the script, and the cookies handed to the browser context.
 */
module BrowserCookies {
  import opened Base
  import opened Text
  import opened Dicts
  import opened PyJson
  import opened BiliAuth

  // ------------------------------------------------------- one account

  /** The object holds a `cookie_info` dict whose `cookies` is a list. */
  predicate CookieInfoList(d: Json) {
    HasKey(d, "cookie_info") && Get(d, "cookie_info").JObj? && Get(Get(d, "cookie_info"), "cookies").JList?
  }

  /** A collected dict is an account only when it can log in. */
  function Usable(out: CookieDict): (r: Option<CookieDict>)
    ensures r.Some? <==> LoginCookies(out)
    ensures r.Some? ==> r.value == out
  {
    if LoginCookies(out) then Some(out) else None
  }

  /**
   * `_normalize_cookie_item`: a non-empty dict becomes the cookies of its
   * `cookie_info.cookies` list or, without such a list, its fields outside the
   * metadata keys; the result is kept only when SESSDATA and bili_jct are set.
   */
  function Normalized(item: Json): (r: Option<CookieDict>)
    ensures r.Some? ==> LoginCookies(r.value) && Truthy(item) && item.JObj?
  {
    if !Truthy(item) || !item.JObj? then None
    else if CookieInfoList(item) then Usable(FromPairs(CookieInfoPairs(Get(Get(item, "cookie_info"), "cookies").items)))
    else Usable(FromPairs(FlatPairs(item.fields)))
  }

  /** The loops of `_normalize_cookie_item`. */
  method NormalizeCookieItem(item: Json) returns (r: Option<CookieDict>)
    ensures r == Normalized(item)
  {
    if !Truthy(item) || !item.JObj? {
      return None;
    }
    var out: CookieDict := [];
    if CookieInfoList(item) {
      var items := Get(Get(item, "cookie_info"), "cookies").items;
      for i := 0 to |items|
        invariant out == FromPairs(CookieInfoPairs(items[..i]))
      {
        CookieInfoStep(items, i);
        match CookieInfoEntry(items[i]) {
          case Some((name, value)) => out := Put(out, name, value);
          case None =>
        }
      }
      assert items[..|items|] == items;
    } else {
      var fields := item.fields;
      for i := 0 to |fields|
        invariant out == FromPairs(FlatPairs(fields[..i]))
      {
        FlatStep(fields, i);
        match FlatEntry(fields[i]) {
          case Some((name, value)) => out := Put(out, name, value);
          case None =>
        }
      }
      assert fields[..|fields|] == fields;
    }
    r := Usable(out);
  }

  /** The flat layout never turns a metadata key into a cookie. */
  lemma {:induction false} FlatPairsNoMeta(fields: seq<(string, Json)>, k: string)
    requires k in Keys(FlatPairs(fields))
    ensures !MetaKey(k)
  {
    var init := fields[..|fields| - 1];
    var before := FlatPairs(init);
    match FlatEntry(fields[|fields| - 1]) {
      case Some(kv) =>
        assert Keys(before + [kv]) == Keys(before) + [kv.0];
        if k in Keys(before) {
          FlatPairsNoMeta(init, k);
        }
      case None =>
        assert before + [] == before;
        FlatPairsNoMeta(init, k);
    }
  }

  /** An account read from the flat layout holds no `token_info`, `cookie_info`, `sso` or `platform` entry. */
  lemma NormalizedSkipsMeta(item: Json, k: string)
    requires !CookieInfoList(item) && Normalized(item).Some?
    requires k in Keys(Normalized(item).value)
    ensures !MetaKey(k)
  {
    FromPairsKeys(FlatPairs(item.fields), k);
    FlatPairsNoMeta(item.fields, k);
  }

  /** A cookie the flat layout keeps is the field's value, stringified, for the last field of that name. */
  lemma FlatKeepsValue(fields: seq<(string, Json)>, i: nat)
    requires i < |fields| && !MetaKey(fields[i].0) && fields[i].1 != JNull
    requires forall j :: i < j < |fields| ==> fields[j].0 != fields[i].0
    ensures Lookup(FromPairs(FlatPairs(fields)), fields[i].0) == Some(Str(fields[i].1))
  {
    FlatKeepsValueFrom(fields, i, |fields|);
    assert fields[..|fields|] == fields;
  }

  lemma {:induction false} FlatKeepsValueFrom(fields: seq<(string, Json)>, i: nat, n: nat)
    requires i < n <= |fields| && !MetaKey(fields[i].0) && fields[i].1 != JNull
    requires forall j :: i < j < n ==> fields[j].0 != fields[i].0
    ensures Lookup(FromPairs(FlatPairs(fields[..n])), fields[i].0) == Some(Str(fields[i].1))
  {
    var k := fields[i].0;
    var init := fields[..n - 1];
    assert fields[..n][..n - 1] == init;
    var before := FlatPairs(init);
    var e := FlatEntry(fields[n - 1]);
    if e.Some? {
      assert FlatPairs(fields[..n]) == before + [e.value];
      FromPairsSnoc(before, e.value.0, e.value.1);
      PutLookup(FromPairs(before), e.value.0, e.value.1, k);
      if n - 1 > i {
        FlatKeepsValueFrom(fields, i, n - 1);
      }
    } else {
      assert FlatPairs(fields[..n]) == before + [];
      assert before + [] == before;
      FlatKeepsValueFrom(fields, i, n - 1);
    }
  }

  /**
   * The browser publisher reads one account object as the API client's cookie
   * reader does, when the object has no `cookie` entry or carries a
   * `cookie_info.cookies` list, and no entry of that list is named by a list or
   * a dict (the API client then gives up, the browser publisher raises).
   */
  lemma NormalizedAgreesWithClient(path: string, text: string, data: Json)
    requires path != "" && StartsWith(Strip(text), "{")
    requires data.JObj? && data.fields != []
    requires CookieInfoList(data) || !HasKey(data, "cookie")
    requires CookieInfoList(data) ==> !AnyNameUnhashable(Get(Get(data, "cookie_info"), "cookies").items)
    ensures LoadedCookies(path, Some(text), Some(data)).0 == Normalized(data)
  {
  }

  // ------------------------------------------------------- "cookie" strings

  /** One `;`-separated part of a `cookie` string: stripped, then cut at its first `=`, both sides stripped. */
  function PartPair(part: string): Option<(string, string)> {
    var p := Strip(part);
    if '=' in p then
      var i := FirstIndex(p, '=');
      Some((Strip(p[..i]), Strip(p[i + 1..])))
    else None
  }

  /** The pairs of all parts that hold a `=`, in order. */
  function PartPairs(parts: seq<string>): seq<(string, string)> {
    if parts == [] then []
    else
      PartPairs(parts[..|parts| - 1])
      + (match PartPair(parts[|parts| - 1]) case Some(kv) => [kv] case None => [])
  }

  /** The dict a `cookie` string of a cookie file is read into, before the login check. */
  function CookieFieldDict(s: string): CookieDict {
    FromPairs(PartPairs(Split(s, ';')))
  }

  /** The loop over the parts of a `cookie` string. */
  method ParseCookieField(s: string) returns (r: Option<CookieDict>)
    ensures r == Usable(CookieFieldDict(s))
  {
    var parts := Split(s, ';');
    var out: CookieDict := [];
    for k := 0 to |parts|
      invariant out == FromPairs(PartPairs(parts[..k]))
    {
      PartStep(parts, k);
      match PartPair(parts[k]) {
        case Some((key, value)) => out := Put(out, key, value);
        case None =>
      }
    }
    assert parts[..|parts|] == parts;
    r := Usable(out);
  }

  lemma PartStep(parts: seq<string>, k: nat)
    requires k < |parts|
    ensures FromPairs(PartPairs(parts[..k + 1])) ==
      match PartPair(parts[k])
      case Some((key, value)) => Put(FromPairs(PartPairs(parts[..k])), key, value)
      case None => FromPairs(PartPairs(parts[..k]))
  {
    assert parts[..k + 1][..k] == parts[..k];
    var before := PartPairs(parts[..k]);
    match PartPair(parts[k]) {
      case Some((key, value)) =>
        assert PartPairs(parts[..k + 1]) == before + [(key, value)];
        FromPairsSnoc(before, key, value);
      case None =>
        assert PartPairs(parts[..k + 1]) == before + [];
        assert before + [] == before;
    }
  }

  /**
   * Stripping a whole part first and the API client's left-strip-then-cut give
   * the same pair: whitespace at the end of a part only ever reaches the value,
   * which is stripped anyway.
   */
  lemma PartPairAgrees(part: string)
    ensures PartPair(part) == CookiePart(part)
  {
    var q := LStrip(part);
    var p := Strip(part);
    assert p == RStrip(q);
    RStripSpec(q);
    assert p == q[..|p|];
    if '=' in q {
      var j := FirstIndex(q, '=');
      assert !IsSpace(q[j]);
      assert j < |p|;
      assert p[j] == '=';
      var i := FirstIndex(p, '=');
      assert i == j;
      assert p[..i] == q[..i];
      var tail := q[|p|..];
      assert forall t :: 0 <= t < |tail| ==> IsSpace(tail[t]) by {
        forall t | 0 <= t < |tail| ensures IsSpace(tail[t]) {
          assert tail[t] == q[|p| + t];
        }
      }
      assert q[i + 1..] == p[i + 1..] + tail;
      StripAppendSpaces(p[i + 1..], tail);
    } else {
      assert '=' !in p by {
        forall t | 0 <= t < |p| ensures p[t] != '=' {
          assert p[t] == q[t];
        }
      }
    }
  }

  lemma {:induction false} PartPairsAgree(parts: seq<string>)
    ensures PartPairs(parts) == CookiePairs(parts)
  {
    if parts != [] {
      PartPairsAgree(parts[..|parts| - 1]);
      PartPairAgrees(parts[|parts| - 1]);
    }
  }

  /**
   * A `cookie` string without surrounding whitespace gives the browser publisher
   * the account the API client's `_parse_cookie_string` gives: the one splits on
   * `;` and strips each part, the other splits on `;` and the whitespace after it.
   */
  lemma CookieFieldAgreesWithClient(s: string)
    requires Trimmed(s)
    ensures Usable(CookieFieldDict(s)) == ParsedCookies(s)
  {
    StripOfTrimmed(s);
    PartPairsAgree(Split(s, ';'));
  }

  // ------------------------------------------------------- cookie files

  /**
   * The trailing-comma repair `re.sub(r",\s*([}\]])", r"\1", raw)`: a comma that
   * only whitespace separates from a closing brace or bracket is dropped together
   * with that whitespace.
   */
  function RepairTrailingCommas(s: string): (r: string)
    ensures |r| <= |s|
    decreases |s|
  {
    if s == [] then []
    else if s[0] == ',' && ClosesNext(s[1..]) then RepairTrailingCommas(LStrip(s[1..]))
    else [s[0]] + RepairTrailingCommas(s[1..])
  }

  predicate ClosesNext(t: string) {
    var u := LStrip(t);
    u != [] && (u[0] == '}' || u[0] == ']')
  }

  /** Text without commas is left as it is. */
  lemma {:induction false} RepairWithoutCommas(s: string)
    requires ',' !in s
    ensures RepairTrailingCommas(s) == s
  {
    if s != [] {
      RepairWithoutCommas(s[1..]);
      assert [s[0]] + s[1..] == s;
    }
  }

  /** The repair removes characters only: it never adds a comma, and only removes the dangling ones. */
  lemma {:induction false} RepairKeepsOut(s: string, c: char)
    requires c !in s
    ensures c !in RepairTrailingCommas(s)
    decreases |s|
  {
    if s != [] {
      if s[0] == ',' && ClosesNext(s[1..]) {
        LStripSpec(s[1..]);
        var l := LStrip(s[1..]);
        assert forall t :: 0 <= t < |l| ==> l[t] == s[1..][|s[1..]| - |l| + t];
        RepairKeepsOut(l, c);
      } else {
        RepairKeepsOut(s[1..], c);
      }
    }
  }

  /** Text without commas before the rest is copied as it is. */
  lemma {:induction false} RepairCopiesCommaFreePrefix(a: string, b: string)
    requires ',' !in a
    ensures RepairTrailingCommas(a + b) == a + RepairTrailingCommas(b)
  {
    if a != [] {
      assert (a + b)[0] == a[0];
      assert (a + b)[1..] == a[1..] + b;
      RepairCopiesCommaFreePrefix(a[1..], b);
      assert [a[0]] + a[1..] == a;
    } else {
      assert a + b == b;
    }
  }

  /** A dangling comma before a closing brace is dropped with the whitespace after it. */
  lemma RepairDanglingComma()
    ensures RepairTrailingCommas("{\"SESSDATA\": \"a\", }") == "{\"SESSDATA\": \"a\"}"
  {
    var a := "{\"SESSDATA\": \"a\"";
    assert "{\"SESSDATA\": \"a\", }" == a + ", }";
    assert ',' !in a by {
      assert forall k :: 0 <= k < |a| ==> a[k] != ',';
    }
    RepairDangling(a);
    assert a + "}" == "{\"SESSDATA\": \"a\"}";
  }

  /** A comma-free text followed by a dangling comma and a brace keeps the text and the brace. */
  lemma RepairDangling(a: string)
    requires ',' !in a
    ensures RepairTrailingCommas(a + ", }") == a + "}"
  {
    RepairCopiesCommaFreePrefix(a, ", }");
    RepairCommaBrace();
  }

  lemma RepairCommaBrace()
    ensures RepairTrailingCommas(", }") == "}"
  {
    assert ", }"[1..] == " }" && LStrip(" }") == "}";
    assert RepairTrailingCommas("}") == "}" by {
      assert "}"[1..] == [];
    }
  }

  /** Only one comma of a run is dropped: `",,}"` becomes `",}"`, which still does not decode. */
  lemma RepairDropsOneCommaOfARun()
    ensures RepairTrailingCommas(",,}") == ",}"
  {
    var s := ",,}";
    assert s[1..] == ",}" && LStrip(",}") == ",}";
    assert !ClosesNext(s[1..]);
    assert ",}"[1..] == "}";
    assert LStrip("}") == "}";
    assert RepairTrailingCommas("}") == "}" by {
      assert "}"[1..] == [];
    }
  }

  /** The usable accounts of a list, in order; items that are not dicts are skipped. */
  function ValidAccounts(items: seq<Json>): (r: seq<CookieDict>)
    ensures |r| <= |items|
    ensures forall i :: 0 <= i < |r| ==> LoginCookies(r[i])
  {
    if items == [] then []
    else
      ValidAccounts(items[..|items| - 1])
      + (match Normalized(items[|items| - 1]) case Some(c) => [c] case None => [])
  }

  /** The loop that keeps each usable account of a list. */
  method CollectAccounts(items: seq<Json>) returns (result: seq<CookieDict>)
    ensures result == ValidAccounts(items)
  {
    result := [];
    for i := 0 to |items|
      invariant result == ValidAccounts(items[..i])
    {
      assert items[..i + 1][..i] == items[..i];
      var c := NormalizeCookieItem(items[i]);
      if c.Some? {
        result := result + [c.value];
      }
    }
    assert items[..|items|] == items;
  }

  /** A list whose every item is a usable account keeps all of them. */
  lemma {:induction false} ValidAccountsAllUsable(items: seq<Json>)
    requires forall i :: 0 <= i < |items| ==> Normalized(items[i]).Some?
    ensures |ValidAccounts(items)| == |items|
    ensures forall i :: 0 <= i < |items| ==> ValidAccounts(items)[i] == Normalized(items[i]).value
  {
    if items != [] {
      ValidAccountsAllUsable(items[..|items| - 1]);
    }
  }

  function Single(c: Option<CookieDict>): (r: Option<seq<CookieDict>>)
    ensures r.Some? <==> c.Some?
    ensures r.Some? ==> r.value == [c.value]
  {
    match c
    case Some(x) => Some([x])
    case None => None
  }

  /** What `json.loads` makes of the stripped content, retried once on the repaired text. */
  function Decoded(raw: string, parse: string -> Option<Json>): Option<Json> {
    match parse(raw)
    case Some(d) => Some(d)
    case None => parse(RepairTrailingCommas(raw))
  }

  /**
   * `load_cookies_from_file`: `file` is the content when `path` names a file and
   * `parse` stands for `json.loads`. A list gives its usable accounts; an object
   * gives its one account, read from `cookie_info.cookies`, from a `cookie`
   * string or from its flat fields; anything else, or no usable account, is None.
   */
  function LoadedAccounts(path: string, file: Option<string>, parse: string -> Option<Json>): (r: Option<seq<CookieDict>>)
    ensures r.Some? ==> r.value != [] && forall i :: 0 <= i < |r.value| ==> LoginCookies(r.value[i])
    ensures (path == "" || file.None?) ==> r.None?
  {
    if path == "" || file.None? then None
    else match Decoded(Strip(file.value), parse)
      case None => None
      case Some(data) =>
        if data.JList? then
          var accounts := ValidAccounts(data.items);
          if accounts == [] then None else Some(accounts)
        else if !data.JObj? then None
        else if !CookieInfoList(data) && HasKey(data, "cookie") && Get(data, "cookie").JStr? then
          Single(Usable(CookieFieldDict(Get(data, "cookie").s)))
        else Single(Normalized(data))
  }

  /** The reading of a cookie file; the loops over a single object's cookies are those of `_normalize_cookie_item`. */
  method LoadCookiesFromFile(path: string, file: Option<string>, parse: string -> Option<Json>)
    returns (r: Option<seq<CookieDict>>)
    ensures r == LoadedAccounts(path, file, parse)
  {
    if path == "" || file.None? {
      return None;
    }
    var raw := Strip(file.value);
    var data := parse(raw);
    if data.None? {
      raw := RepairTrailingCommas(raw);
      data := parse(raw);
      if data.None? {
        return None;
      }
    }
    var d := data.value;
    if d.JList? {
      var accounts := CollectAccounts(d.items);
      return if accounts == [] then None else Some(accounts);
    }
    if !d.JObj? {
      return None;
    }
    if !CookieInfoList(d) && HasKey(d, "cookie") && Get(d, "cookie").JStr? {
      var c := ParseCookieField(Get(d, "cookie").s);
      return Single(c);
    }
    var c := NormalizeCookieItem(d);
    return Single(c);
  }

  /** Wrapping one account object in a list changes nothing, when it has no `cookie` string. */
  lemma ListOfOneAccount(path: string, one: string, listed: string, item: Json, parse: string -> Option<Json>)
    requires path != ""
    requires parse(Strip(one)) == Some(item) && parse(Strip(listed)) == Some(JList([item]))
    requires item.JObj? && !HasKey(item, "cookie")
    ensures LoadedAccounts(path, Some(listed), parse) == LoadedAccounts(path, Some(one), parse)
  {
    assert [item][..0] == [];
    assert ValidAccounts([item]) == ValidAccounts([]) + (match Normalized(item) case Some(c) => [c] case None => []);
    assert Decoded(Strip(listed), parse) == Some(JList([item]));
    assert Decoded(Strip(one), parse) == Some(item);
    assert LoadedAccounts(path, Some(one), parse) == Single(Normalized(item));
    if Normalized(item).Some? {
      assert ValidAccounts([item]) == [Normalized(item).value];
    } else {
      assert ValidAccounts([item]) == [];
    }
  }

  /**
   * A file the API client can read as one account gives the browser publisher
   * that same account, when it decodes without repair and keeps its cookies in
   * `cookie_info.cookies` or in flat fields.
   */
  lemma FileAgreesWithClient(path: string, text: string, parse: string -> Option<Json>)
    requires path != "" && StartsWith(Strip(text), "{")
    requires parse(Strip(text)).Some? && parse(Strip(text)).value.JObj?
    requires var data := parse(Strip(text)).value;
      CookieInfoList(data) || !HasKey(data, "cookie")
    requires LoadedCookies(path, Some(text), parse(Strip(text))).0.Some?
    ensures LoadedAccounts(path, Some(text), parse) == Some([LoadedCookies(path, Some(text), parse(Strip(text))).0.value])
  {
    var data := parse(Strip(text)).value;
    NormalizedAgreesWithClient(path, text, data);
  }

  // ------------------------------------------------------- configured accounts

  /**
   * `get_cookies_list`: the usable accounts of `COOKIES_LIST` when there are any,
   * else `COOKIES_DICT` when it holds SESSDATA and bili_jct, else the accounts of
   * `COOKIE_FILE` (read as `file`), else None.
   */
  function ConfiguredAccounts(
    configured: seq<Json>, configuredDict: Option<CookieDict>,
    cookieFile: string, file: Option<string>, parse: string -> Option<Json>): (r: Option<seq<CookieDict>>)
    ensures r.Some? ==> r.value != [] && forall i :: 0 <= i < |r.value| ==> LoginCookies(r.value[i])
  {
    if ValidAccounts(configured) != [] then Some(ValidAccounts(configured))
    else if configuredDict.Some? && LoginCookies(configuredDict.value) then Some([configuredDict.value])
    else if cookieFile != "" then LoadedAccounts(cookieFile, file, parse)
    else None
  }

  method GetCookiesList(
    configured: seq<Json>, configuredDict: Option<CookieDict>,
    cookieFile: string, file: Option<string>, parse: string -> Option<Json>) returns (r: Option<seq<CookieDict>>)
    ensures r == ConfiguredAccounts(configured, configuredDict, cookieFile, file, parse)
  {
    if configured != [] {
      var result := CollectAccounts(configured);
      if result != [] {
        return Some(result);
      }
    }
    if configuredDict.Some? && LoginCookies(configuredDict.value) {
      return Some([configuredDict.value]);
    }
    if cookieFile != "" {
      r := LoadCookiesFromFile(cookieFile, file, parse);
      return;
    }
    return None;
  }

  /** A usable configured list shadows the configured dict and the cookie file. */
  lemma ConfiguredListFirst(
    configured: seq<Json>, d1: Option<CookieDict>, d2: Option<CookieDict>,
    f1: string, f2: string, file1: Option<string>, file2: Option<string>, parse: string -> Option<Json>)
    requires exists i :: 0 <= i < |configured| && Normalized(configured[i]).Some?
    ensures ConfiguredAccounts(configured, d1, f1, file1, parse) == ConfiguredAccounts(configured, d2, f2, file2, parse)
    ensures ConfiguredAccounts(configured, d1, f1, file1, parse).Some?
  {
    var i :| 0 <= i < |configured| && Normalized(configured[i]).Some?;
    ValidAccountsNonEmpty(configured, i);
  }

  lemma {:induction false} ValidAccountsNonEmpty(items: seq<Json>, i: nat)
    requires i < |items| && Normalized(items[i]).Some?
    ensures ValidAccounts(items) != []
  {
    var init := items[..|items| - 1];
    if i < |items| - 1 {
      assert init[i] == items[i];
      ValidAccountsNonEmpty(init, i);
    }
  }

  // ------------------------------------------------------- browser cookies

  /** One cookie as the browser context takes it. */
  datatype BrowserCookie = BrowserCookie(name: string, value: string, domain: string, path: string)

  const CookieDomain := ".bilibili.com"

  /** `cookie_dict_to_playwright`: every named cookie, on `.bilibili.com` and path `/`, in order. */
  function BrowserCookies(d: CookieDict): (r: seq<BrowserCookie>)
    ensures |r| <= |d|
    ensures forall i :: 0 <= i < |r| ==> r[i].domain == CookieDomain && r[i].path == "/" && r[i].name != ""
  {
    if d == [] then []
    else
      BrowserCookies(d[..|d| - 1])
      + (if d[|d| - 1].0 == "" then [] else [BrowserCookie(d[|d| - 1].0, d[|d| - 1].1, CookieDomain, "/")])
  }

  method CookieDictToPlaywright(d: CookieDict) returns (out: seq<BrowserCookie>)
    ensures out == BrowserCookies(d)
  {
    out := [];
    for i := 0 to |d|
      invariant out == BrowserCookies(d[..i])
    {
      assert d[..i + 1][..i] == d[..i];
      var (name, value) := d[i];
      if name != "" {
        out := out + [BrowserCookie(name, value, CookieDomain, "/")];
      }
    }
    assert d[..|d|] == d;
  }

  /** Every named cookie of the account reaches the browser with its value, in order. */
  lemma {:induction false} BrowserCookiesKeepNamed(d: CookieDict)
    requires forall i :: 0 <= i < |d| ==> d[i].0 != ""
    ensures |BrowserCookies(d)| == |d|
    ensures forall i :: 0 <= i < |d| ==> BrowserCookies(d)[i].name == d[i].0 && BrowserCookies(d)[i].value == d[i].1
  {
    if d != [] {
      BrowserCookiesKeepNamed(d[..|d| - 1]);
    }
  }

  /** An account's login cookies are always among those handed to the browser. */
  lemma {:induction false} BrowserCookiesCarryLogin(d: CookieDict, k: string)
    requires k != "" && k in Keys(d)
    ensures exists i :: 0 <= i < |BrowserCookies(d)| && BrowserCookies(d)[i].name == k
  {
    var init := d[..|d| - 1];
    var last := d[|d| - 1];
    if last.0 == k {
      var r := BrowserCookies(d);
      assert r[|r| - 1].name == k;
    } else {
      assert Keys(d) == Keys(init) + [last.0];
      BrowserCookiesCarryLogin(init, k);
      var i :| 0 <= i < |BrowserCookies(init)| && BrowserCookies(init)[i].name == k;
      assert BrowserCookies(d)[i] == BrowserCookies(init)[i];
    }
  }
}
