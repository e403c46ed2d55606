/**
 * Bilibili login: cookie files in their three layouts, the cookie-string format,
 * validating a cookie against the account endpoint, and the QR-code poll loop.
 */
module BiliAuth {
  import opened Base
  import opened Text
  import opened Dicts
  import opened PyJson
  import opened Http

  type CookieDict = Dict<string>

  /** `d.get(k)` is truthy: present with a non-empty value. */
  predicate HasValue(d: CookieDict, k: string) {
    Lookup(d, k).Some? && Lookup(d, k).value != ""
  }

  /** The two cookies a logged-in session needs. */
  predicate LoginCookies(d: CookieDict) {
    HasValue(d, "SESSDATA") && HasValue(d, "bili_jct")
  }

  /** The entries with a truthy value, in order. */
  function Truthies(d: CookieDict): (r: CookieDict)
    ensures |r| <= |d|
    ensures forall i :: 0 <= i < |r| ==> r[i].1 != ""
  {
    if d == [] then [] else (if d[0].1 != "" then [d[0]] else []) + Truthies(d[1..])
  }

  lemma {:induction false} TruthiesKeys(d: CookieDict)
    ensures forall k :: k in Keys(Truthies(d)) ==> k in Keys(d)
  {
    if d != [] {
      TruthiesKeys(d[1..]);
      var t := Truthies(d[1..]);
      forall k | k in Keys(Truthies(d)) ensures k in Keys(d) {
        if d[0].1 != "" {
          KeysCons(d[0], t);
        }
        if k == d[0].0 {
          assert Keys(d)[0] == k;
        } else {
          KeyInTail(d, k);
        }
      }
    }
  }

  lemma KeysCons(e: (string, string), t: CookieDict)
    ensures Keys([e] + t) == [e.0] + Keys(t)
  {
    assert ([e] + t)[1..] == t;
  }

  /** A key of the tail is a key of the whole. */
  lemma KeyInTail(d: CookieDict, k: string)
    requires d != [] && k in Keys(d[1..])
    ensures k in Keys(d)
  {
    var m :| 0 <= m < |d| - 1 && Keys(d[1..])[m] == k;
    assert Keys(d)[m + 1] == k;
  }

  lemma {:induction false} TruthiesDistinct(d: CookieDict)
    requires DistinctKeys(d)
    ensures DistinctKeys(Truthies(d))
  {
    if d != [] {
      TruthiesDistinct(d[1..]);
      TruthiesKeys(d[1..]);
      if d[0].1 != "" {
        var r := Truthies(d);
        var t := Truthies(d[1..]);
        assert r == [d[0]] + t;
        forall j | 0 <= j < |t| ensures t[j].0 != d[0].0 {
          assert t[j].0 == Keys(t)[j];
          assert Keys(t)[j] in Keys(t);
          var m :| 0 <= m < |d[1..]| && Keys(d[1..])[m] == t[j].0;
          assert d[m + 1].0 == t[j].0;
        }
      }
    }
  }

  lemma {:induction false} LookupTruthies(d: CookieDict, k: string)
    requires DistinctKeys(d) && HasValue(d, k)
    ensures Lookup(Truthies(d), k) == Lookup(d, k)
  {
    if d[0].0 == k {
    } else {
      assert Keys(d) == [d[0].0] + Keys(d[1..]);
      assert DistinctKeys(d[1..]);
      LookupTruthies(d[1..], k);
      assert Lookup(d, k) == Lookup(d[1..], k);
      if d[0].1 != "" {
        assert Truthies(d) == [d[0]] + Truthies(d[1..]);
      } else {
        assert Truthies(d) == Truthies(d[1..]);
      }
    }
  }

  // ------------------------------------------------------- cookie strings

  /** One `k=v` part of a cookie string, keys and values stripped. */
  function CookiePart(part: string): Option<(string, string)> {
    var p := LStrip(part);
    if '=' in p then
      var i := FirstIndex(p, '=');
      Some((Strip(p[..i]), Strip(p[i + 1..])))
    else None
  }

  /** The pairs of all parts that hold a `=`, in order. */
  function CookiePairs(parts: seq<string>): seq<(string, string)> {
    if parts == [] then []
    else
      CookiePairs(parts[..|parts| - 1])
      + (match CookiePart(parts[|parts| - 1]) case Some(kv) => [kv] case None => [])
  }

  /**
   * `_parse_cookie_string`: the dict of all `k=v` parts of the stripped string, cut
   * at `;` and the whitespace after it, or None unless SESSDATA and bili_jct are
   * both non-empty.
   */
  function ParsedCookies(s: string): (r: Option<CookieDict>)
    ensures r.Some? ==> LoginCookies(r.value)
  {
    var out := FromPairs(CookiePairs(Split(Strip(s), ';')));
    if LoginCookies(out) then Some(out) else None
  }

  /** The parsing loop of `_parse_cookie_string`. */
  method ParseCookieString(s: string) returns (r: Option<CookieDict>)
    ensures r == ParsedCookies(s)
  {
    var parts := Split(Strip(s), ';');
    var out: CookieDict := [];
    for k := 0 to |parts|
      invariant out == FromPairs(CookiePairs(parts[..k]))
    {
      ParseStep(parts, k);
      match CookiePart(parts[k]) {
        case Some((key, value)) => out := Put(out, key, value);
        case None =>
      }
    }
    assert parts[..|parts|] == parts;
    if LoginCookies(out) {
      return Some(out);
    }
    return None;
  }

  /** One more part assigns its pair, if it has one. */
  lemma ParseStep(parts: seq<string>, k: nat)
    requires k < |parts|
    ensures FromPairs(CookiePairs(parts[..k + 1])) ==
      match CookiePart(parts[k])
      case Some((key, value)) => Put(FromPairs(CookiePairs(parts[..k])), key, value)
      case None => FromPairs(CookiePairs(parts[..k]))
  {
    assert parts[..k] + [parts[k]] == parts[..k + 1];
    CookiePairsSnoc(parts[..k], parts[k]);
    match CookiePart(parts[k]) {
      case Some((key, value)) =>
        FromPairsSnoc(CookiePairs(parts[..k]), key, value);
      case None =>
        var before := CookiePairs(parts[..k]);
        assert before + [] == before;
    }
  }

  /** `cookie_string_from_dict`: the truthy entries as `k=v`, joined with "; ". */
  function CookieString(d: CookieDict): string {
    Join(EntryStrings(Truthies(d)), "; ")
  }

  function EntryStrings(d: CookieDict): (r: seq<string>)
    ensures |r| == |d|
    ensures forall i :: 0 <= i < |d| ==> r[i] == d[i].0 + "=" + d[i].1
  {
    if d == [] then [] else [d[0].0 + "=" + d[0].1] + EntryStrings(d[1..])
  }

  /** A cookie the string format can carry: the separators do not occur and nothing needs stripping. */
  predicate Carriable(kv: (string, string)) {
    '=' !in kv.0 && ';' !in kv.0 && Trimmed(kv.0) && ';' !in kv.1 && Trimmed(kv.1)
  }

  /**
   * Serialising a cookie dict and parsing the string back gives the dict without its
   * empty values, provided the separators do not occur in it and the login cookies
   * are set.
   */
  lemma CookieStringRoundTrip(d: CookieDict)
    requires DistinctKeys(d) && LoginCookies(d)
    requires forall i :: 0 <= i < |d| ==> Carriable(d[i])
    ensures ParsedCookies(CookieString(d)) == Some(Truthies(d))
  {
    TruthiesDistinct(d);
    LookupTruthies(d, "SESSDATA");
    LookupTruthies(d, "bili_jct");
    TruthiesCarriable(d);
    ParseCarriable(Truthies(d));
  }

  /** A list of carriable cookies with distinct keys and the login cookies parses back from its string. */
  lemma ParseCarriable(t: CookieDict)
    requires DistinctKeys(t) && LoginCookies(t)
    requires forall i :: 0 <= i < |t| ==> Carriable(t[i]) && t[i].1 != ""
    ensures ParsedCookies(Join(EntryStrings(t), "; ")) == Some(t)
  {
    assert t != [];
    PartsOfCookieString(t);
    FromDistinctPairs(t);
  }

  /** The parts of a serialised cookie list are its entries again. */
  lemma PartsOfCookieString(t: CookieDict)
    requires |t| >= 1
    requires forall i :: 0 <= i < |t| ==> Carriable(t[i]) && t[i].1 != ""
    ensures CookiePairs(Split(Strip(Join(EntryStrings(t), "; ")), ';')) == t
  {
    var es := EntryStrings(t);
    EntriesParse(t);
    JoinTrimmed(es, "; ");
    StripOfTrimmed(Join(es, "; "));
    JoinSpaced(es);
    SpacedParse(es, t);
    SplitJoin(Spaced(es), ';');
    CookiePairsAllSome(Spaced(es), t);
  }

  lemma EntriesParse(t: CookieDict)
    requires forall i :: 0 <= i < |t| ==> Carriable(t[i]) && t[i].1 != ""
    ensures var es := EntryStrings(t);
      forall i :: 0 <= i < |es| ==> es[i] != "" && Trimmed(es[i]) && ';' !in es[i] && CookiePart(es[i]) == Some(t[i])
  {
    var es := EntryStrings(t);
    forall i | 0 <= i < |es| ensures es[i] != "" && Trimmed(es[i]) && ';' !in es[i] && CookiePart(es[i]) == Some(t[i]) {
      EntryShape(t[i]);
    }
  }

  lemma SpacedParse(es: seq<string>, t: CookieDict)
    requires |es| == |t|
    requires forall i :: 0 <= i < |es| ==> Trimmed(es[i]) && ';' !in es[i] && CookiePart(es[i]) == Some(t[i])
    ensures var ys := Spaced(es);
      forall i :: 0 <= i < |ys| ==> ';' !in ys[i] && CookiePart(ys[i]) == Some(t[i])
  {
    var ys := Spaced(es);
    forall i | 0 <= i < |ys| ensures ';' !in ys[i] && CookiePart(ys[i]) == Some(t[i]) {
      if i > 0 {
        SpacedPart(es[i]);
      }
    }
  }

  /** The space the separator leaves before a part changes neither its `;`s nor its pair. */
  lemma SpacedPart(e: string)
    requires ';' !in e
    ensures ';' !in " " + e && CookiePart(" " + e) == CookiePart(e)
  {
    var y := " " + e;
    assert y[1..] == e;
    assert LStrip(y) == LStrip(e);
    assert forall k :: 0 <= k < |y| ==> y[k] != ';' by {
      assert forall k :: 1 <= k < |y| ==> y[k] == e[k - 1];
    }
  }

  lemma {:induction false} TruthiesCarriable(d: CookieDict)
    requires forall i :: 0 <= i < |d| ==> Carriable(d[i])
    ensures forall i :: 0 <= i < |Truthies(d)| ==> Carriable(Truthies(d)[i])
  {
    if d != [] {
      TruthiesCarriable(d[1..]);
      var head := if d[0].1 != "" then [d[0]] else [];
      assert Truthies(d) == head + Truthies(d[1..]);
    }
  }

  lemma EntryShape(kv: (string, string))
    requires Carriable(kv) && kv.1 != ""
    ensures var e := kv.0 + "=" + kv.1;
      e != "" && Trimmed(e) && ';' !in e && CookiePart(e) == Some(kv)
  {
    var (k, v) := kv;
    var e := k + "=" + v;
    assert e[|k|] == '=';
    assert forall j :: 0 <= j < |k| ==> e[j] == k[j];
    assert FirstIndex(e, '=') == |k|;
    assert e[..|k|] == k && e[|k| + 1..] == v;
    StripOfTrimmed(k);
    StripOfTrimmed(v);
    assert e[|e| - 1] == v[|v| - 1];
    assert Trimmed(e);
    assert LStrip(e) == e;
    assert forall j :: |k| < j < |e| ==> e[j] == v[j - |k| - 1];
  }

  /** The parts after the first, each with the blank that followed its `;`. */
  function Spaced(xs: seq<string>): (r: seq<string>)
    ensures |r| == |xs|
    ensures forall i :: 0 <= i < |xs| ==> r[i] == (if i == 0 then xs[i] else " " + xs[i])
  {
    if xs == [] then [] else [xs[0]] + Prefixed(xs[1..])
  }

  function Prefixed(xs: seq<string>): (r: seq<string>)
    ensures |r| == |xs|
    ensures forall i :: 0 <= i < |xs| ==> r[i] == " " + xs[i]
  {
    if xs == [] then [] else [" " + xs[0]] + Prefixed(xs[1..])
  }

  lemma JoinSpaced(xs: seq<string>)
    requires |xs| >= 1
    ensures Join(xs, "; ") == Join(Spaced(xs), ";")
  {
    if |xs| > 1 {
      var sp := Spaced(xs);
      var j := Join(xs[1..], "; ");
      assert sp == [xs[0]] + Prefixed(xs[1..]);
      assert sp[1..] == Prefixed(xs[1..]);
      JoinPrefixed(xs[1..]);
      assert Join(sp, ";") == xs[0] + ";" + (" " + j);
      SemicolonBlank(xs[0], j);
    }
  }

  lemma SemicolonBlank(a: string, b: string)
    ensures a + ";" + (" " + b) == a + "; " + b
  {
    assert ";" + " " == "; ";
  }

  /** Joining the blank-prefixed parts with `;` is a blank before joining the parts with `; `. */
  lemma {:induction false} JoinPrefixed(ys: seq<string>)
    requires |ys| >= 1
    ensures Join(Prefixed(ys), ";") == " " + Join(ys, "; ")
  {
    if |ys| > 1 {
      var ps := Prefixed(ys);
      assert ps[1..] == Prefixed(ys[1..]);
      JoinPrefixed(ys[1..]);
      assert Join(ps, ";") == (" " + ys[0]) + ";" + (" " + Join(ys[1..], "; "));
    }
  }

  lemma {:induction false} JoinTrimmed(xs: seq<string>, sep: string)
    requires |xs| >= 1
    requires forall i :: 0 <= i < |xs| ==> xs[i] != "" && Trimmed(xs[i])
    ensures var j := Join(xs, sep); j != "" && j[0] == xs[0][0] && j[|j| - 1] == xs[|xs| - 1][|xs[|xs| - 1]| - 1]
    ensures Trimmed(Join(xs, sep))
  {
    if |xs| > 1 {
      JoinTrimmed(xs[1..], sep);
      var j := Join(xs, sep);
      var tail := Join(xs[1..], sep);
      assert j == xs[0] + sep + tail;
      assert j[|j| - 1] == tail[|tail| - 1];
    }
  }

  lemma {:induction false} CookiePairsAppend(a: seq<string>, b: seq<string>)
    ensures CookiePairs(a + b) == CookiePairs(a) + CookiePairs(b)
    decreases |b|
  {
    if b == [] {
      assert a + b == a;
    } else {
      assert (a + b)[..|a + b| - 1] == a + b[..|b| - 1];
      CookiePairsAppend(a, b[..|b| - 1]);
    }
  }

  lemma CookiePairsSnoc(xs: seq<string>, x: string)
    ensures CookiePairs(xs + [x]) == CookiePairs(xs)
      + (match CookiePart(x) case Some(kv) => [kv] case None => [])
  {
    assert (xs + [x])[..|xs|] == xs;
  }

  lemma CookiePairsAllSome(xs: seq<string>, t: seq<(string, string)>)
    requires |xs| == |t|
    requires forall i :: 0 <= i < |xs| ==> CookiePart(xs[i]) == Some(t[i])
    ensures CookiePairs(xs) == t
  {
    var k := 0;
    while k < |xs|
      invariant k <= |xs| && CookiePairs(xs[..k]) == t[..k]
    {
      CookiePairsStep(xs, t, k);
      k := k + 1;
    }
    assert xs[..k] == xs && t[..k] == t;
  }

  lemma CookiePairsStep(xs: seq<string>, t: seq<(string, string)>, k: nat)
    requires k < |xs| == |t|
    requires CookiePairs(xs[..k]) == t[..k] && CookiePart(xs[k]) == Some(t[k])
    ensures CookiePairs(xs[..k + 1]) == t[..k + 1]
  {
    CookiePairsSnoc(xs[..k], xs[k]);
    assert xs[..k + 1] == xs[..k] + [xs[k]];
    assert t[..k + 1] == t[..k] + [t[k]];
  }

  // ------------------------------------------------------- validation

  /** What the account check found. */
  datatype Check = Valid(user: Json) | Invalid | CheckRaised

  /** `data.get("data", {})`: a missing key reads as an empty dict. */
  function DataField(j: Json): Json {
    GetDefault(j, "data", JObj([]))
  }

  /**
   * `check_cookie_valid`: without a SESSDATA no request is made; otherwise the
   * account endpoint's answer is valid exactly when `code` equals 0 and
   * `data.isLogin` is the boolean True. The status code is not checked; a transport
   * error escapes.
   */
  function CheckCookie(d: CookieDict, nav: Exchange): (r: Check)
    ensures !HasValue(d, "SESSDATA") ==> r == Invalid
    ensures r.Valid? <==> (HasValue(d, "SESSDATA") && nav.Answered? && nav.body.Some?
      && nav.body.value.JObj? && EqInt(Get(nav.body.value, "code"), 0)
      && DataField(nav.body.value).JObj? && Get(DataField(nav.body.value), "isLogin") == JBool(true))
    ensures r.Valid? ==> r.user == Get(nav.body.value, "data") && r.user.JObj?
    ensures r.CheckRaised? <==> HasValue(d, "SESSDATA") && nav.Raised?
  {
    if !HasValue(d, "SESSDATA") then Invalid
    else if nav.Raised? then CheckRaised
    else match nav.body
      case Some(j) =>
        if j.JObj? && EqInt(Get(j, "code"), 0) && DataField(j).JObj? && Get(DataField(j), "isLogin") == JBool(true)
        then Valid(Get(j, "data"))
        else Invalid
      case None => Invalid
  }

  /** What `login_with_cookie` yields on success. */
  datatype Login = Login(cookies: CookieDict, csrf: string, mid: Option<string>)

  /**
   * `login_with_cookie`: a valid cookie logs in with the CSRF token taken from
   * bili_jct ("" when absent) and the user id from DedeUserID, else from the
   * account reply's `mid`.
   */
  function LoginWithCookie(d: CookieDict, nav: Exchange): (r: Result<Login, Check>)
    ensures r.Ok? <==> CheckCookie(d, nav).Valid?
    ensures r.Err? ==> r.error == CheckCookie(d, nav)
    ensures r.Ok? ==> r.value.cookies == d
    ensures r.Ok? ==> r.value.csrf == (if HasValue(d, "bili_jct") then Lookup(d, "bili_jct").value else "")
    ensures r.Ok? ==> (r.value.csrf != "" <==> HasValue(d, "bili_jct"))
    ensures r.Ok? && HasValue(d, "DedeUserID") ==> r.value.mid == Lookup(d, "DedeUserID")
    ensures r.Ok? && !HasValue(d, "DedeUserID") ==>
      r.value.mid == (if Get(CheckCookie(d, nav).user, "mid") != JNull
                      then Some(Str(Get(CheckCookie(d, nav).user, "mid"))) else None)
  {
    match CheckCookie(d, nav)
    case Valid(user) =>
      var csrf := if HasValue(d, "bili_jct") then Lookup(d, "bili_jct").value else "";
      var mid :=
        if HasValue(d, "DedeUserID") then Lookup(d, "DedeUserID")
        else if Get(user, "mid") != JNull then Some(Str(Get(user, "mid")))
        else None;
      Ok(Login(d, csrf, mid))
    case other => Err(other)
  }

  // ------------------------------------------------------- cookie files

  /** Keys of the flat layout that are not cookies. */
  predicate MetaKey(k: string) {
    k == "token_info" || k == "cookie_info" || k == "sso" || k == "platform"
  }

  /** One entry of a `cookie_info.cookies` list: a dict with a truthy name and a non-None value. */
  function CookieInfoEntry(c: Json): Option<(string, string)> {
    if c.JObj? && Truthy(Get(c, "name")) && Get(c, "value") != JNull
    then Some((Str(Get(c, "name")), Str(Get(c, "value"))))
    else None
  }

  /**
   * An entry that passes the checks but whose `name` is a list or a dict: using
   * it as a dict key raises TypeError.
   */
  predicate NameUnhashable(c: Json) {
    c.JObj? && Truthy(Get(c, "name")) && Get(c, "value") != JNull
    && (Get(c, "name").JList? || Get(c, "name").JObj?)
  }

  /** Some entry of the list stops the loop with a TypeError. */
  predicate AnyNameUnhashable(items: seq<Json>) {
    exists i :: 0 <= i < |items| && NameUnhashable(items[i])
  }

  lemma UnhashablePrefix(items: seq<Json>, i: nat)
    requires i < |items|
    ensures AnyNameUnhashable(items[..i + 1]) <==> AnyNameUnhashable(items[..i]) || NameUnhashable(items[i])
    ensures NameUnhashable(items[i]) ==> AnyNameUnhashable(items)
  {
    assert items[..i + 1][i] == items[i];
    if AnyNameUnhashable(items[..i + 1]) && !NameUnhashable(items[i]) {
      var j :| 0 <= j < i + 1 && NameUnhashable(items[..i + 1][j]);
      assert items[..i][j] == items[j];
    }
    if AnyNameUnhashable(items[..i]) {
      var j :| 0 <= j < i && NameUnhashable(items[..i][j]);
      assert items[..i + 1][j] == items[j];
    }
  }

  /** The cookies of a `cookie_info.cookies` list, in order. */
  function CookieInfoPairs(items: seq<Json>): seq<(string, string)> {
    if items == [] then []
    else
      CookieInfoPairs(items[..|items| - 1])
      + (match CookieInfoEntry(items[|items| - 1]) case Some(kv) => [kv] case None => [])
  }

  /** One field of the flat layout: a non-None value outside the metadata keys, stringified. */
  function FlatEntry(field: (string, Json)): (r: Option<(string, string)>)
    ensures r.Some? ==> !MetaKey(r.value.0) && r.value.0 == field.0
  {
    if !MetaKey(field.0) && field.1 != JNull then Some((field.0, Str(field.1))) else None
  }

  /** The cookies of the flat layout, in order. */
  function FlatPairs(fields: seq<(string, Json)>): seq<(string, string)> {
    if fields == [] then []
    else
      FlatPairs(fields[..|fields| - 1])
      + (match FlatEntry(fields[|fields| - 1]) case Some(kv) => [kv] case None => [])
  }

  /** One more list item assigns its cookie, if it has one. */
  lemma CookieInfoStep(items: seq<Json>, i: nat)
    requires i < |items|
    ensures FromPairs(CookieInfoPairs(items[..i + 1])) ==
      match CookieInfoEntry(items[i])
      case Some((key, value)) => Put(FromPairs(CookieInfoPairs(items[..i])), key, value)
      case None => FromPairs(CookieInfoPairs(items[..i]))
  {
    assert items[..i + 1][..i] == items[..i];
    var before := CookieInfoPairs(items[..i]);
    match CookieInfoEntry(items[i]) {
      case Some((key, value)) =>
        assert CookieInfoPairs(items[..i + 1]) == before + [(key, value)];
        FromPairsSnoc(before, key, value);
      case None =>
        assert CookieInfoPairs(items[..i + 1]) == before + [];
        assert before + [] == before;
    }
  }

  /** One more field assigns its cookie, if it has one. */
  lemma FlatStep(fields: seq<(string, Json)>, i: nat)
    requires i < |fields|
    ensures FromPairs(FlatPairs(fields[..i + 1])) ==
      match FlatEntry(fields[i])
      case Some((key, value)) => Put(FromPairs(FlatPairs(fields[..i])), key, value)
      case None => FromPairs(FlatPairs(fields[..i]))
  {
    assert fields[..i + 1][..i] == fields[..i];
    var before := FlatPairs(fields[..i]);
    match FlatEntry(fields[i]) {
      case Some((key, value)) =>
        assert FlatPairs(fields[..i + 1]) == before + [(key, value)];
        FromPairsSnoc(before, key, value);
      case None =>
        assert FlatPairs(fields[..i + 1]) == before + [];
        assert before + [] == before;
    }
  }

  /** The layout a cookie file is read as. */
  function LoadedCookies(path: string, file: Option<string>, decoded: Option<Json>): (r: (Option<CookieDict>, Option<Json>))
    ensures r.0.Some? ==> LoginCookies(r.0.value)
    ensures r.1.Some? ==> r.1.value.JObj?
    ensures (path == "" || file.None?) ==> r == (None, None)
    ensures path != "" && file.Some? && !StartsWith(Strip(file.value), "{") ==> r == (ParsedCookies(Strip(file.value)), None)
  {
    if path == "" || file.None? then (None, None)
    else
      var raw := Strip(file.value);
      if !StartsWith(raw, "{") then (ParsedCookies(raw), None)
      else match decoded
        case None => (None, None)
        case Some(data) =>
          if !data.JObj? then (None, None)
          else
            var tokenInfo := if Get(data, "token_info").JObj? then Some(Get(data, "token_info")) else None;
            if HasKey(data, "cookie_info") && Get(data, "cookie_info").JObj?
              && Get(Get(data, "cookie_info"), "cookies").JList? then
              var items := Get(Get(data, "cookie_info"), "cookies").items;
              if AnyNameUnhashable(items) then (None, None)
              else
                var out := FromPairs(CookieInfoPairs(items));
                (if LoginCookies(out) then Some(out) else None, tokenInfo)
            else if HasKey(data, "cookie") then
              if Get(data, "cookie").JStr? then (ParsedCookies(Get(data, "cookie").s), tokenInfo)
              else (None, None)
            else
              var out := FromPairs(FlatPairs(data.fields));
              (if LoginCookies(out) then Some(out) else None, tokenInfo)
  }

  /** The loop over a `cookie_info.cookies` list; None when an unhashable name raises. */
  method CollectCookieInfo(items: seq<Json>) returns (r: Option<CookieDict>)
    ensures r == if AnyNameUnhashable(items) then None else Some(FromPairs(CookieInfoPairs(items)))
  {
    var out: CookieDict := [];
    for i := 0 to |items|
      invariant out == FromPairs(CookieInfoPairs(items[..i]))
      invariant !AnyNameUnhashable(items[..i])
    {
      UnhashablePrefix(items, i);
      if NameUnhashable(items[i]) {
        return None;
      }
      CookieInfoStep(items, i);
      match CookieInfoEntry(items[i]) {
        case Some((name, value)) => out := Put(out, name, value);
        case None =>
      }
    }
    assert items[..|items|] == items;
    r := Some(out);
  }

  /**
   * `load_cookie_from_file`: `file` is the content when `path` names a file and
   * `decoded` is what `json.loads` makes of the stripped content (None when it is
   * not JSON). Returns the cookie dict (None unless SESSDATA and bili_jct are set)
   * and the `token_info` dict, which is returned even when the cookies are unusable.
   */
  method LoadCookieFromFile(path: string, file: Option<string>, decoded: Option<Json>)
    returns (cookies: Option<CookieDict>, tokenInfo: Option<Json>)
    ensures (cookies, tokenInfo) == LoadedCookies(path, file, decoded)
  {
    if path == "" || file.None? {
      return None, None;
    }
    var raw := Strip(file.value);
    if !StartsWith(raw, "{") {
      cookies := ParseCookieString(raw);
      return cookies, None;
    }
    if decoded.None? || !decoded.value.JObj? {
      return None, None;
    }
    var data := decoded.value;
    tokenInfo := if Get(data, "token_info").JObj? then Some(Get(data, "token_info")) else None;
    if HasKey(data, "cookie_info") && Get(data, "cookie_info").JObj? && Get(Get(data, "cookie_info"), "cookies").JList? {
      var out := CollectCookieInfo(Get(Get(data, "cookie_info"), "cookies").items);
      if out.None? {
        return None, None;
      }
      cookies := if LoginCookies(out.value) then out else None;
      return;
    }
    if HasKey(data, "cookie") {
      if !Get(data, "cookie").JStr? {
        return None, None;
      }
      cookies := ParseCookieString(Get(data, "cookie").s);
      return;
    }
    var out: CookieDict := [];
    for i := 0 to |data.fields|
      invariant out == FromPairs(FlatPairs(data.fields[..i]))
    {
      FlatStep(data.fields, i);
      match FlatEntry(data.fields[i]) {
        case Some((name, value)) => out := Put(out, name, value);
        case None =>
      }
    }
    assert data.fields[..|data.fields|] == data.fields;
    cookies := if LoginCookies(out) then Some(out) else None;
  }

  // ------------------------------------------------------- QR-code login

  const QrGenerateUrl := "https://passport.bilibili.com/x/passport-login/web/qrcode/generate"
  const QrPollUrl := "https://passport.bilibili.com/x/passport-login/web/qrcode/poll"
  const AccessTokenUrl := "https://passport.bilibili.com/x/passport-login/oauth2/access_token"
  /** The poll loop gives up after this many polls, two seconds apart. */
  const MaxPolls := 120
  const PollSleep := 2
  /** Saved cookies expire 180 days after the save. */
  const CookieLifetime := 15552000

  /** `qrcode_key` of the generate reply, or None where the function returns four Nones. */
  function QrKey(gen: Exchange): (r: Option<Json>)
    requires gen.Answered?
    ensures r.Some? ==> Truthy(r.value)
    ensures r.Some? ==> gen.body.Some? && gen.body.value.JObj? && EqInt(Get(gen.body.value, "code"), 0)
                        && Truthy(GetDefault(DataField(gen.body.value), "url", JStr("")))
  {
    if gen.body.None? || !gen.body.value.JObj? then None
    else
      var j := gen.body.value;
      if !EqInt(Get(j, "code"), 0) || !DataField(j).JObj? then None
      else
        var url := GetDefault(DataField(j), "url", JStr(""));
        var key := GetDefault(DataField(j), "qrcode_key", JStr(""));
        if Truthy(url) && Truthy(key) then Some(key) else None
  }

  /** What one poll needs from the outside world: the replies, the jar after the redirect and the clock. */
  datatype PollReplies = PollReplies(
    poll: Exchange, redirect: Exchange, jar: CookieDict, allJar: CookieDict,
    token: Exchange, nav: Exchange, now: int)

  /** `code` of the poll reply's data dict, or None where reading it raises inside the try. */
  function PollCode(poll: Exchange): Option<Json> {
    if poll.Answered? && poll.body.Some? && poll.body.value.JObj? && DataField(poll.body.value).JObj?
    then Some(Get(DataField(poll.body.value), "code"))
    else None
  }

  /**
   * The access-token request after a successful scan: the `token_info` it yields
   * (None unless `code` equals 0) and the access token inside it. Every exception is
   * swallowed; one raised by `token_info.get` leaves `token_info` set.
   */
  function TokenOf(token: Exchange): (r: (Option<Json>, Option<Json>))
    ensures r.1.Some? ==> (r.0.Some? && r.0.value.JObj? && r.1.value != JNull
      && r.1.value == Get(r.0.value, "access_token"))
  {
    if token.Raised? || token.body.None? || !token.body.value.JObj? then (None, None)
    else if !EqInt(Get(token.body.value, "code"), 0) then (None, None)
    else
      var data := DataField(token.body.value);
      if !data.JObj? then (None, None)
      else
        var info := GetDefault(data, "token_info", JObj([]));
        if !info.JObj? then (Some(info), None)
        else (Some(info), if Get(info, "access_token") == JNull then None else Some(Get(info, "access_token")))
  }

  /** One element of the saved `cookie_info.cookies` list. */
  function SavedCookie(kv: (string, string), now: int): Json {
    JObj([("name", JStr(kv.0)), ("value", JStr(kv.1)), ("http_only", JInt(0)), ("secure", JInt(0)),
          ("expires", JInt(now + CookieLifetime))])
  }

  function SavedCookies(d: CookieDict, now: int): (r: seq<Json>)
    ensures |r| == |d|
    ensures forall i :: 0 <= i < |d| ==> r[i] == SavedCookie(d[i], now)
  {
    if d == [] then [] else [SavedCookie(d[0], now)] + SavedCookies(d[1..], now)
  }

  /** The file the QR login writes: its cookies in the `cookie_info` layout, and the token info when truthy. */
  function SaveData(d: CookieDict, tokenInfo: Option<Json>, now: int): Json {
    JObj([
      ("cookie_info", JObj([
        ("cookies", JList(SavedCookies(d, now))),
        ("domains", JList([JStr(".bilibili.com"), JStr(".biligame.com"), JStr(".bigfun.cn"),
                           JStr(".bigfunapp.cn"), JStr(".dreamcast.hk")]))])),
      ("sso", JList([JStr("https://passport.bilibili.com/api/v2/sso"),
                     JStr("https://passport.biligame.com/api/v2/sso"),
                     JStr("https://passport.bigfunapp.cn/api/v2/sso")])),
      ("platform", JStr("BiliTV"))]
      + (if tokenInfo.Some? && Truthy(tokenInfo.value) then [("token_info", tokenInfo.value)] else []))
  }

  /** The cookies a confirmed scan logs in with: the jar's `.bilibili.com` cookies (all cookies when that is empty) that have a value. */
  function ScanCookies(p: PollReplies): CookieDict {
    Truthies(if p.jar != [] then p.jar else p.allJar)
  }

  /** The poll reply carries code 0 and the redirect to its `url` went through. */
  predicate Scanned(p: PollReplies) {
    PollCode(p.poll).Some? && EqInt(PollCode(p.poll).value, 0) && !p.redirect.Raised?
  }

  /** A scanned reply whose account check did not raise: the loop returns on it. */
  predicate Confirmed(p: PollReplies) {
    Scanned(p) && !CheckCookie(ScanCookies(p), p.nav).CheckRaised?
  }

  /** How one poll ends. */
  datatype Next = Continue | Expired | Escaped | Finished(login: Option<Login>, accessToken: Option<Json>)

  /** One poll: how it ends, what it sent, the jar it left and the file it wrote. */
  datatype Step = Step(next: Next, sent: seq<Request>, jar: Option<CookieDict>, wrote: Option<Json>)

  /**
   * One pass of the poll loop. A transport error on the poll itself escapes; every
   * other failure inside the try (bad JSON, the redirect raising, the account check
   * raising) polls again. Code 0 logs in with the jar's `.bilibili.com` cookies (all
   * cookies when that is empty) that have a value, code 86038 means the code expired.
   */
  function PollStep(p: PollReplies, key: string, savePath: bool): (r: Step)
    ensures r.next.Escaped? <==> p.poll.Raised?
    ensures r.next.Expired? <==> PollCode(p.poll).Some? && EqInt(PollCode(p.poll).value, 86038)
    ensures r.next.Finished? <==> Confirmed(p)
    ensures r.next.Finished? && r.next.login.Some? ==> LoginWithCookie(ScanCookies(p), p.nav) == Ok(r.next.login.value)
    ensures r.next.Finished? ==> (r.next.login.Some? <==> CheckCookie(ScanCookies(p), p.nav).Valid?)
    ensures r.next.Finished? ==> r.next.accessToken == TokenOf(p.token).1
    ensures Scanned(p) ==>
      r.wrote == (if savePath then Some(SaveData(ScanCookies(p), TokenOf(p.token).0, p.now)) else None)
    ensures r.wrote.Some? ==> savePath && Scanned(p)
    ensures |r.sent| >= 1 && r.sent[0] == GetRequest(QrPollUrl, [("qrcode_key", key)])
  {
    var pollReq := GetRequest(QrPollUrl, [("qrcode_key", key)]);
    if p.poll.Raised? then Step(Escaped, [pollReq], None, None)
    else match PollCode(p.poll)
      case None => Step(Continue, [pollReq], None, None)
      case Some(code) =>
        if EqInt(code, 0) then
          var url := Str(GetDefault(DataField(p.poll.body.value), "url", JStr("")));
          var redirectReq := GetRequest(url, []);
          if p.redirect.Raised? then Step(Continue, [pollReq, redirectReq], None, None)
          else
            var cookies := ScanCookies(p);
            var token := TokenOf(p.token);
            var wrote := if savePath then Some(SaveData(cookies, token.0, p.now)) else None;
            var sent := [pollReq, redirectReq, PostRequest(AccessTokenUrl, JNull)];
            match LoginWithCookie(cookies, p.nav)
            case Ok(login) => Step(Finished(Some(login), token.1), sent, Some(p.allJar), wrote)
            case Err(CheckRaised) => Step(Continue, sent, Some(p.allJar), wrote)
            case Err(_) => Step(Finished(None, token.1), sent, Some(p.allJar), wrote)
        else if EqInt(code, 86038) then Step(Expired, [pollReq], None, None)
        else Step(Continue, [pollReq], None, None)
  }

  /** How `login_with_qrcode` ends; all but QrFinished return four Nones, QrRaised raises. */
  datatype QrOutcome =
    | QrRaised
    | QrRefused
    | QrExpired
    | QrTimedOut
    | QrFinished(login: Option<Login>, accessToken: Option<Json>)

  /** A run of polls: how it ends, what it sent, the last jar and file, and how many polls it made. */
  datatype QrRun = QrRun(outcome: QrOutcome, sent: seq<Request>, jar: Option<CookieDict>, saved: Option<Json>, polls: nat)

  /** Later writes replace earlier ones. */
  function Latest<T>(earlier: Option<T>, later: Option<T>): Option<T> {
    if later.Some? then later else earlier
  }

  /** The passes of the loop: the j-th polls once, the world answering with `ps[j]`. */
  function Passes(ps: seq<PollReplies>, key: string, savePath: bool): nat -> Step {
    (j: nat) => if j < |ps| then PollStep(ps[j], key, savePath) else Step(Continue, [], None, None)
  }

  /** Passes i .. n - 1 of the loop, stopping at the first that does not continue. */
  function Polls(pass: nat -> Step, i: nat, n: nat): (r: QrRun)
    requires i <= n
    ensures r.polls <= n - i
    ensures r.outcome.QrTimedOut? ==> r.polls == n - i
    ensures r.outcome != QrRefused
    decreases n - i
  {
    if i == n then QrRun(QrTimedOut, [], None, None, 0)
    else
      var st := pass(i);
      match st.next
      case Continue =>
        var rest := Polls(pass, i + 1, n);
        QrRun(rest.outcome, st.sent + rest.sent, Latest(st.jar, rest.jar), Latest(st.wrote, rest.saved), rest.polls + 1)
      case _ => QrRun(Stopped(st.next), st.sent, st.jar, st.wrote, 1)
  }

  /** The outcome of a poll that ends the loop. */
  function Stopped(next: Next): QrOutcome
    requires !next.Continue?
  {
    match next
    case Escaped => QrRaised
    case Expired => QrExpired
    case Finished(login, token) => QrFinished(login, token)
  }

  /** `login_with_qrcode` as a whole: the generate request, then at most MaxPolls polls. */
  function QrLogin(gen: Exchange, ps: seq<PollReplies>, savePath: bool): QrRun
    requires |ps| == MaxPolls
  {
    var genReq := GetRequest(QrGenerateUrl, []);
    if gen.Raised? then QrRun(QrRaised, [genReq], None, None, 0)
    else match QrKey(gen)
      case None => QrRun(QrRefused, [genReq], None, None, 0)
      case Some(key) =>
        var run := Polls(Passes(ps, Str(key), savePath), 0, MaxPolls);
        run.(sent := [genReq] + run.sent)
  }

  /** Prefix `a` of a run followed by the run `r`. */
  function Then(a: QrRun, r: QrRun): QrRun {
    QrRun(r.outcome, a.sent + r.sent, Latest(a.jar, r.jar), Latest(a.saved, r.saved), a.polls + r.polls)
  }

  lemma PollsContinue(pass: nat -> Step, i: nat, n: nat, acc: QrRun)
    requires i < n && pass(i).next.Continue?
    ensures var st := pass(i);
      Then(acc, Polls(pass, i, n))
      == Then(QrRun(acc.outcome, acc.sent + st.sent, Latest(acc.jar, st.jar), Latest(acc.saved, st.wrote), acc.polls + 1),
              Polls(pass, i + 1, n))
  {
    var st := pass(i);
    var rest := Polls(pass, i + 1, n);
    assert acc.sent + (st.sent + rest.sent) == (acc.sent + st.sent) + rest.sent;
  }

  lemma PollsStop(pass: nat -> Step, i: nat, n: nat)
    requires i < n && !pass(i).next.Continue?
    ensures var st := pass(i);
      Polls(pass, i, n) == QrRun(Stopped(st.next), st.sent, st.jar, st.wrote, 1)
  {
  }

  /** A stopping poll ends the run that `acc` began. */
  lemma ThenStop(pass: nat -> Step, i: nat, n: nat, acc: QrRun)
    requires i < n && !pass(i).next.Continue?
    ensures var st := pass(i);
      Then(acc, Polls(pass, i, n))
      == QrRun(Stopped(st.next), acc.sent + st.sent, Latest(acc.jar, st.jar), Latest(acc.saved, st.wrote), acc.polls + 1)
  {
    PollsStop(pass, i, n);
  }

  lemma AppendAssoc<T>(a: seq<T>, b: seq<T>, c: seq<T>)
    ensures (a + b) + c == a + (b + c)
  {
  }

  lemma ThenNothing(r: QrRun)
    ensures Then(QrRun(QrTimedOut, [], None, None, 0), r) == r
  {
    assert [] + r.sent == r.sent;
  }

  lemma ThenTimedOut(acc: QrRun)
    ensures Then(acc, QrRun(QrTimedOut, [], None, None, 0)) == acc.(outcome := QrTimedOut)
  {
    assert acc.sent + [] == acc.sent;
  }

  /**
   * `login_with_qrcode`: `ps[i]` holds what the world answers to the i-th poll. The
   * session's jar ends as the redirect left it; `saved` is the file written last.
   */
  method LoginWithQrcode(s: Session, gen: Exchange, ps: seq<PollReplies>, savePath: bool)
    returns (outcome: QrOutcome, saved: Option<Json>, polls: nat)
    requires |ps| == MaxPolls
    modifies s
    ensures var run := QrLogin(gen, ps, savePath);
      outcome == run.outcome && saved == run.saved && polls == run.polls
      && s.sent == old(s.sent) + run.sent
      && s.cookies == (if run.jar.Some? then run.jar.value else old(s.cookies))
      && s.headers == old(s.headers)
  {
    s.sent := s.sent + [GetRequest(QrGenerateUrl, [])];
    if gen.Raised? {
      return QrRaised, None, 0;
    }
    var k := QrKey(gen);
    if k.None? {
      return QrRefused, None, 0;
    }
    var pass := Passes(ps, Str(k.value), savePath);
    outcome, saved, polls := PollLoop(s, pass);
    AppendAssoc(old(s.sent), [GetRequest(QrGenerateUrl, [])], Polls(pass, 0, MaxPolls).sent);
  }

  /**
   * The `for _ in range(120)` loop of `login_with_qrcode`; `pass(i)` is what the
   * i-th pass of its body does (`PollStep` on the i-th replies).
   */
  method PollLoop(s: Session, pass: nat -> Step)
    returns (outcome: QrOutcome, saved: Option<Json>, polls: nat)
    modifies s
    ensures var run := Polls(pass, 0, MaxPolls);
      outcome == run.outcome && saved == run.saved && polls == run.polls
      && s.sent == old(s.sent) + run.sent
      && s.cookies == (if run.jar.Some? then run.jar.value else old(s.cookies))
      && s.headers == old(s.headers)
  {
    ghost var run := Polls(pass, 0, MaxPolls);
    ghost var acc := QrRun(QrTimedOut, [], None, None, 0);
    saved := None;
    polls := 0;
    var i := 0;
    ThenNothing(run);
    while i < MaxPolls
      invariant i <= MaxPolls && polls == i
      invariant s.sent == old(s.sent) + acc.sent
      invariant acc.saved == saved && acc.polls == polls
      invariant s.cookies == (if acc.jar.Some? then acc.jar.value else old(s.cookies))
      invariant s.headers == old(s.headers)
      invariant Then(acc, Polls(pass, i, MaxPolls)) == run
    {
      var st := pass(i);
      s.sent := s.sent + st.sent;
      if st.jar.Some? {
        s.cookies := st.jar.value;
      }
      if st.wrote.Some? {
        saved := st.wrote;
      }
      polls := polls + 1;
      AppendAssoc(old(s.sent), acc.sent, st.sent);
      if !st.next.Continue? {
        ThenStop(pass, i, MaxPolls, acc);
        return Stopped(st.next), saved, polls;
      }
      PollsContinue(pass, i, MaxPolls, acc);
      acc := QrRun(acc.outcome, acc.sent + st.sent, Latest(acc.jar, st.jar), Latest(acc.saved, st.wrote), acc.polls + 1);
      i := i + 1;
    }
    ThenTimedOut(acc);
    outcome := QrTimedOut;
  }

  /** The first pass that does not go on ends the run, and the file it writes is the one the run saved last. */
  lemma {:induction false} PollsStopAt(pass: nat -> Step, i: nat, k: nat, n: nat)
    requires i <= k < n
    requires forall j :: i <= j < k ==> pass(j).next.Continue?
    requires !pass(k).next.Continue?
    ensures var r := Polls(pass, i, n);
      r.outcome == Stopped(pass(k).next) && r.polls == k - i + 1
      && (pass(k).wrote.Some? ==> r.saved == pass(k).wrote)
      && ((forall j :: i <= j <= k ==> pass(j).wrote.None?) ==> r.saved.None?)
    decreases k - i
  {
    if i < k {
      PollsStopAt(pass, i + 1, k, n);
    }
  }

  /**
   * A QR login whose first deciding poll is a confirmed scan ends there: it
   * finishes with the login of the scanned cookies (None when the account check
   * finds them invalid) and the access token of that pass, and, when a save path
   * is given, the file it saved is that pass's `cookie_info` file.
   */
  lemma ConfirmedScanFinishes(gen: Exchange, ps: seq<PollReplies>, savePath: bool, k: nat)
    requires |ps| == MaxPolls && k < MaxPolls
    requires gen.Answered? && QrKey(gen).Some?
    requires forall j :: 0 <= j < k ==> PollStep(ps[j], Str(QrKey(gen).value), savePath).next.Continue?
    requires Confirmed(ps[k])
    ensures var r := QrLogin(gen, ps, savePath);
      var p := ps[k];
      r.outcome.QrFinished? && r.polls == k + 1
      && (r.outcome.login.Some? <==> CheckCookie(ScanCookies(p), p.nav).Valid?)
      && (r.outcome.login.Some? ==> LoginWithCookie(ScanCookies(p), p.nav) == Ok(r.outcome.login.value))
      && r.outcome.accessToken == TokenOf(p.token).1
      && r.saved == (if savePath then Some(SaveData(ScanCookies(p), TokenOf(p.token).0, p.now)) else None)
  {
    var pass := Passes(ps, Str(QrKey(gen).value), savePath);
    forall j | 0 <= j <= k ensures pass(j) == PollStep(ps[j], Str(QrKey(gen).value), savePath) {
    }
    PollsStopAt(pass, 0, k, MaxPolls);
  }

  /** A poll reply whose data dict carries the "scanned, not yet confirmed" code. */
  predicate Pending(p: PollReplies) {
    PollCode(p.poll) == Some(JInt(86090))
  }

  /** A pending reply makes the pass send the poll and go on, with nothing else. */
  lemma PendingStep(p: PollReplies, key: string, savePath: bool)
    requires Pending(p)
    ensures PollStep(p, key, savePath) == Step(Continue, [GetRequest(QrPollUrl, [("qrcode_key", key)])], None, None)
  {
  }

  /** Passes that all send `req` and go on run out the loop, having sent only `req`. */
  lemma {:induction false} QuietTimesOut(pass: nat -> Step, i: nat, n: nat, req: Request)
    requires i <= n
    requires forall j :: i <= j < n ==> pass(j) == Step(Continue, [req], None, None)
    ensures var r := Polls(pass, i, n);
      r.outcome == QrTimedOut && r.polls == n - i && r.saved.None? && r.jar.None?
      && |r.sent| == n - i && forall j :: 0 <= j < |r.sent| ==> r.sent[j] == req
    decreases n - i
  {
    if i < n {
      QuietTimesOut(pass, i + 1, n, req);
      var rest := Polls(pass, i + 1, n);
      assert Polls(pass, i, n) == QrRun(rest.outcome, [req] + rest.sent, rest.jar, rest.saved, rest.polls + 1);
    }
  }

  /** While the code stays unconfirmed the loop polls on to the end and times out. */
  lemma PendingTimesOut(ps: seq<PollReplies>, i: nat, key: string, savePath: bool)
    requires i <= |ps|
    requires forall j :: i <= j < |ps| ==> Pending(ps[j])
    ensures var r := Polls(Passes(ps, key, savePath), i, |ps|);
      r.outcome == QrTimedOut && r.polls == |ps| - i && r.saved.None? && r.jar.None?
      && |r.sent| == |ps| - i
      && forall j :: 0 <= j < |r.sent| ==> r.sent[j] == GetRequest(QrPollUrl, [("qrcode_key", key)])
  {
    var pass := Passes(ps, key, savePath);
    var req := GetRequest(QrPollUrl, [("qrcode_key", key)]);
    forall j | i <= j < |ps| ensures pass(j) == Step(Continue, [req], None, None) {
      PendingStep(ps[j], key, savePath);
    }
    QuietTimesOut(pass, i, |ps|, req);
  }

  /** A QR login that logs in does so with a session cookie and only non-empty values. */
  lemma {:induction false} FinishedLoginCookies(ps: seq<PollReplies>, i: nat, key: string, savePath: bool)
    requires i <= |ps|
    ensures var r := Polls(Passes(ps, key, savePath), i, |ps|);
      r.outcome.QrFinished? && r.outcome.login.Some? ==>
        HasValue(r.outcome.login.value.cookies, "SESSDATA")
        && forall j :: 0 <= j < |r.outcome.login.value.cookies| ==> r.outcome.login.value.cookies[j].1 != ""
    decreases |ps| - i
  {
    if i < |ps| {
      FinishedLoginCookies(ps, i + 1, key, savePath);
      assert Passes(ps, key, savePath)(i) == PollStep(ps[i], key, savePath);
    }
  }

  /**
   * The file the QR login saves loads back, through the `cookie_info` layout, as the
   * cookies it was made from and the token info it carried.
   */
  lemma SavedCookiesLoad(path: string, text: string, d: CookieDict, tokenInfo: Option<Json>, now: int)
    requires path != "" && StartsWith(Strip(text), "{")
    requires DistinctKeys(d)
    requires forall i :: 0 <= i < |d| ==> d[i].0 != ""
    ensures LoadedCookies(path, Some(text), Some(SaveData(d, tokenInfo, now))).0 == if LoginCookies(d) then Some(d) else None
    ensures LoadedCookies(path, Some(text), Some(SaveData(d, tokenInfo, now))).1
         == if tokenInfo.Some? && tokenInfo.value.JObj? && Truthy(tokenInfo.value) then tokenInfo else None
  {
    var saved := SaveData(d, tokenInfo, now);
    SaveDataCookieInfo(d, tokenInfo, now);
    SavedNamesHashable(d, now);
    CookieInfoLayout(path, text, saved);
    SaveDataTokenInfo(d, tokenInfo, now);
    SavedCookiesPairs(d, now);
    FromDistinctPairs(d);
  }

  /** A dict with a `cookie_info` dict holding a `cookies` list is read in that layout. */
  lemma CookieInfoLayout(path: string, text: string, data: Json)
    requires path != "" && StartsWith(Strip(text), "{")
    requires HasKey(data, "cookie_info") && Get(data, "cookie_info").JObj?
    requires Get(Get(data, "cookie_info"), "cookies").JList?
    requires !AnyNameUnhashable(Get(Get(data, "cookie_info"), "cookies").items)
    ensures var out := FromPairs(CookieInfoPairs(Get(Get(data, "cookie_info"), "cookies").items));
      LoadedCookies(path, Some(text), Some(data))
      == (if LoginCookies(out) then Some(out) else None,
          if Get(data, "token_info").JObj? then Some(Get(data, "token_info")) else None)
  {
  }

  /** The saved file has a `cookie_info` dict whose `cookies` are the saved cookie list. */
  lemma SaveDataCookieInfo(d: CookieDict, tokenInfo: Option<Json>, now: int)
    ensures var saved := SaveData(d, tokenInfo, now);
      HasKey(saved, "cookie_info") && Get(saved, "cookie_info").JObj?
      && Get(Get(saved, "cookie_info"), "cookies") == JList(SavedCookies(d, now))
  {
    var saved := SaveData(d, tokenInfo, now);
    FieldGetAt(saved.fields, 0, "cookie_info");
    FieldGetAt(saved.fields[0].1.fields, 0, "cookies");
  }

  /** The saved file's `token_info` reads back as the token info when it is a non-empty dict. */
  lemma SaveDataTokenInfo(d: CookieDict, tokenInfo: Option<Json>, now: int)
    ensures var t := Get(SaveData(d, tokenInfo, now), "token_info");
      (if t.JObj? then Some(t) else None)
      == (if tokenInfo.Some? && tokenInfo.value.JObj? && Truthy(tokenInfo.value) then tokenInfo else None)
  {
    var saved := SaveData(d, tokenInfo, now);
    var head := saved.fields[..3];
    assert forall i :: 0 <= i < |head| ==> head[i].0 != "token_info";
    if tokenInfo.Some? && Truthy(tokenInfo.value) {
      assert saved.fields == head + [("token_info", tokenInfo.value)];
      FieldGetSkip(head, [("token_info", tokenInfo.value)], "token_info");
    } else {
      assert saved.fields == head;
    }
  }

  lemma SavedCookiesPairs(d: CookieDict, now: int)
    requires forall i :: 0 <= i < |d| ==> d[i].0 != ""
    ensures CookieInfoPairs(SavedCookies(d, now)) == d
  {
    var items := SavedCookies(d, now);
    forall i | 0 <= i < |items| ensures CookieInfoEntry(items[i]) == Some(d[i]) {
      SavedCookieEntry(d[i], now);
    }
    CookieInfoAllSome(items, d);
  }

  /** Every saved cookie is named by a string. */
  lemma SavedNamesHashable(d: CookieDict, now: int)
    ensures !AnyNameUnhashable(SavedCookies(d, now))
  {
    var items := SavedCookies(d, now);
    forall i | 0 <= i < |items| ensures !NameUnhashable(items[i]) {
      var c := items[i];
      assert c.fields[0] == ("name", JStr(d[i].0));
      FieldGetAt(c.fields, 0, "name");
    }
  }

  /**
   * A `cookie_info.cookies` entry with a list or dict `name` makes the reader give
   * up: the TypeError is caught and neither cookies nor token info are returned.
   */
  lemma UnhashableNameRefused(path: string, text: string, data: Json, i: nat)
    requires path != "" && StartsWith(Strip(text), "{") && data.JObj?
    requires HasKey(data, "cookie_info") && Get(data, "cookie_info").JObj?
    requires Get(Get(data, "cookie_info"), "cookies").JList?
    requires i < |Get(Get(data, "cookie_info"), "cookies").items|
    requires NameUnhashable(Get(Get(data, "cookie_info"), "cookies").items[i])
    ensures LoadedCookies(path, Some(text), Some(data)) == (None, None)
  {
  }

  lemma SavedCookieEntry(kv: (string, string), now: int)
    requires kv.0 != ""
    ensures CookieInfoEntry(SavedCookie(kv, now)) == Some(kv)
  {
    var c := SavedCookie(kv, now);
    FieldGetSkip([c.fields[0]], c.fields[1..], "value");
    assert c.fields == [c.fields[0]] + c.fields[1..];
  }

  lemma CookieInfoAllSome(items: seq<Json>, t: seq<(string, string)>)
    requires |items| == |t|
    requires forall i {:trigger CookieInfoEntry(items[i])} :: 0 <= i < |items| ==> CookieInfoEntry(items[i]) == Some(t[i])
    ensures CookieInfoPairs(items) == t
  {
    for k := 0 to |items|
      invariant CookieInfoPairs(items[..k]) == t[..k]
    {
      CookieInfoPrefixStep(items, t, k);
    }
    assert items[..|items|] == items;
    assert t[..|t|] == t;
  }

  lemma CookieInfoPrefixStep(items: seq<Json>, t: seq<(string, string)>, k: nat)
    requires k < |items| == |t|
    requires CookieInfoPairs(items[..k]) == t[..k] && CookieInfoEntry(items[k]) == Some(t[k])
    ensures CookieInfoPairs(items[..k + 1]) == t[..k + 1]
  {
    assert items[..k + 1][..k] == items[..k];
    assert CookieInfoPairs(items[..k + 1]) == CookieInfoPairs(items[..k]) + [t[k]];
    assert t[..k + 1] == t[..k] + [t[k]];
  }
}
