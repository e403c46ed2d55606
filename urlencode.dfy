/**
 * `urllib.parse.quote_plus` and `urlencode` as the app submission uses them:
 * letters, digits and `_.-~` stay, a space becomes `+`, every other character
 * becomes `%XX` for each byte of its UTF-8 encoding.
 */
module UrlEncode {
  import opened Text

  predicate IsUnreserved(c: char) {
    ('a' <= c <= 'z') || ('A' <= c <= 'Z') || ('0' <= c <= '9') || c == '_' || c == '.' || c == '-' || c == '~'
  }

  function HexDigit(n: nat): (c: char)
    requires n < 16
    ensures IsUnreserved(c)
  {
    if n < 10 then ('0' as int + n) as char else ('A' as int + n - 10) as char
  }

  /** The UTF-8 bytes of one character. */
  function Utf8(c: char): (bs: seq<nat>)
    ensures 1 <= |bs| <= 4
    ensures forall i :: 0 <= i < |bs| ==> bs[i] < 256
  {
    var n := c as int;
    if n < 0x80 then [n]
    else if n < 0x800 then [0xC0 + n / 64, 0x80 + n % 64]
    else if n < 0x10000 then [0xE0 + n / 4096, 0x80 + (n / 64) % 64, 0x80 + n % 64]
    else [0xF0 + n / 262144, 0x80 + (n / 4096) % 64, 0x80 + (n / 64) % 64, 0x80 + n % 64]
  }

  function PercentBytes(bs: seq<nat>): (r: string)
    requires forall i :: 0 <= i < |bs| ==> bs[i] < 256
    ensures |r| == 3 * |bs|
    ensures forall i :: 0 <= i < |r| ==> r[i] == '%' || IsUnreserved(r[i])
  {
    if bs == [] then ""
    else "%" + [HexDigit(bs[0] / 16), HexDigit(bs[0] % 16)] + PercentBytes(bs[1..])
  }

  function QuoteChar(c: char): (r: string)
    ensures forall i :: 0 <= i < |r| ==> EncodedChar(r[i])
  {
    if IsUnreserved(c) then [c] else if c == ' ' then "+" else PercentBytes(Utf8(c))
  }

  /** `quote_plus(s)` with no extra safe characters. */
  function QuotePlus(s: string): string {
    if s == [] then "" else QuoteChar(s[0]) + QuotePlus(s[1..])
  }

  predicate EncodedChar(c: char) {
    c == '%' || c == '+' || IsUnreserved(c)
  }

  /** The encoding only uses unreserved characters, `%` and `+`. */
  lemma {:induction false} QuotePlusAlphabet(s: string)
    ensures forall i :: 0 <= i < |QuotePlus(s)| ==> EncodedChar(QuotePlus(s)[i])
  {
    if s != [] {
      QuotePlusAlphabet(s[1..]);
      var h := QuoteChar(s[0]);
      var t := QuotePlus(s[1..]);
      assert QuotePlus(s) == h + t;
      forall i | 0 <= i < |h + t| ensures EncodedChar((h + t)[i]) {
        if i < |h| {
          assert (h + t)[i] == h[i];
        } else {
          assert (h + t)[i] == t[i - |h|];
        }
      }
    }
  }

  /** Text made only of unreserved characters is left as it is. */
  lemma {:induction false} QuotePlusUnreserved(s: string)
    requires forall i :: 0 <= i < |s| ==> IsUnreserved(s[i])
    ensures QuotePlus(s) == s
  {
    if s != [] {
      QuotePlusUnreserved(s[1..]);
      assert [s[0]] + s[1..] == s;
    }
  }

  /** The `k=v` fields of an encoded query, before they are joined with `&`. */
  function EncodeFields(pairs: seq<(string, string)>): (r: seq<string>)
    ensures |r| == |pairs|
    ensures forall i :: 0 <= i < |r| ==> r[i] == QuotePlus(pairs[i].0) + "=" + QuotePlus(pairs[i].1)
  {
    if pairs == [] then [] else [QuotePlus(pairs[0].0) + "=" + QuotePlus(pairs[0].1)] + EncodeFields(pairs[1..])
  }

  /** `urlencode(pairs)` for pairs whose values are already `str()`-ed. */
  function UrlEncodePairs(pairs: seq<(string, string)>): string {
    Join(EncodeFields(pairs), "&")
  }

  /** An encoded field holds no `&`, because `&` itself is always escaped. */
  lemma FieldHasNoAmp(k: string, v: string)
    ensures '&' !in QuotePlus(k) + "=" + QuotePlus(v)
  {
    var f := QuotePlus(k) + "=" + QuotePlus(v);
    QuotePlusAlphabet(k);
    QuotePlusAlphabet(v);
    assert forall i :: 0 <= i < |f| ==> f[i] == '=' || EncodedChar(f[i]) by {
      forall i | 0 <= i < |f|
        ensures f[i] == '=' || EncodedChar(f[i])
      {
        if i < |QuotePlus(k)| {
          assert f[i] == QuotePlus(k)[i];
        } else if i > |QuotePlus(k)| {
          assert f[i] == QuotePlus(v)[i - |QuotePlus(k)| - 1];
        }
      }
    }
  }

  /** Splitting an encoded query at `&` gives back one field per pair, in order. */
  lemma UrlEncodeSplits(pairs: seq<(string, string)>)
    requires |pairs| >= 1
    ensures Split(UrlEncodePairs(pairs), '&') == EncodeFields(pairs)
  {
    var fs := EncodeFields(pairs);
    forall i | 0 <= i < |fs| ensures '&' !in fs[i] {
      FieldHasNoAmp(pairs[i].0, pairs[i].1);
    }
    SplitJoin(fs, '&');
  }
}
