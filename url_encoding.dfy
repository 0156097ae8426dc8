/**
 * Form/URL encoding of query items and a URL value. The encoder is RFC 3986 percent-encoding:
 * characters of the unreserved set (section 2.3 of RFC 3986) are kept, every other character is
 * written as its UTF-8 octets, each as "%" and two upper-case hex digits (section 2.1).
 * Items are joined as key=value pairs separated by '&'. A decoder is given so that the
 * encoding can be shown to lose nothing.
 */
module UrlEncoding {
  import opened Wrappers
  import opened Text

  type Byte = x: int | 0 <= x < 256

  /** A query item as QUrlQuery holds it: (key, value). */
  type QueryItem = (string, string)

  /** The unreserved set of section 2.3 of RFC 3986. */
  predicate Unreserved(c: char) {
    'A' <= c <= 'Z' || 'a' <= c <= 'z' || '0' <= c <= '9' || c == '-' || c == '.' || c == '_' || c == '~'
  }

  /** UTF-8 octets of one Unicode scalar value. */
  function Utf8(c: char): (r: seq<Byte>)
    ensures 1 <= |r| <= 4
    ensures (c as int) < 0x80 <==> r == [c as int]
    ensures |r| > 1 ==> r[0] >= 0xC0 && forall i :: 1 <= i < |r| ==> 0x80 <= r[i] < 0xC0
  {
    var n := c as int;
    if n < 0x80 then [n]
    else if n < 0x800 then [0xC0 + n / 64, 0x80 + n % 64]
    else if n < 0x1_0000 then [0xE0 + n / 4096, 0x80 + (n / 64) % 64, 0x80 + n % 64]
    else [0xF0 + n / 262144, 0x80 + (n / 4096) % 64, 0x80 + (n / 64) % 64, 0x80 + n % 64]
  }

  function Utf8String(s: string): (r: seq<Byte>)
    ensures |r| >= |s|
  {
    if |s| == 0 then [] else Utf8(s[0]) + Utf8String(s[1..])
  }

  /** Upper-case hex digit of a nibble. */
  function HexDigit(d: nat): (c: char)
    requires d < 16
    ensures Unreserved(c)
  {
    if d < 10 then DigitChar(d) else (('A' as int) + d - 10) as char
  }

  /** Value of a hex digit of either case. */
  function HexValue(c: char): Option<nat> {
    if '0' <= c <= '9' then Some(DigitValue(c))
    else if 'A' <= c <= 'F' then Some((c as int) - ('A' as int) + 10)
    else if 'a' <= c <= 'f' then Some((c as int) - ('a' as int) + 10)
    else None
  }

  function PercentBytes(bs: seq<Byte>): (r: string)
    ensures |r| == 3 * |bs|
    ensures forall i :: 0 <= i < |r| ==> Unreserved(r[i]) || r[i] == '%'
  {
    if |bs| == 0 then [] else ['%', HexDigit(bs[0] / 16), HexDigit(bs[0] % 16)] + PercentBytes(bs[1..])
  }

  function EncodeChar(c: char): string {
    if Unreserved(c) then [c] else PercentBytes(Utf8(c))
  }

  /**
   * Percent-encoding of one key or value. The result holds only unreserved characters and '%',
   * so in particular no '&' or '=' that could be taken for a separator.
   */
  function EncodeComponent(s: string): (r: string)
    ensures |r| >= |s|
    ensures forall i :: 0 <= i < |r| ==> Unreserved(r[i]) || r[i] == '%'
  {
    if |s| == 0 then [] else EncodeChar(s[0]) + EncodeComponent(s[1..])
  }

  function Prepend(bs: seq<Byte>, o: Option<seq<Byte>>): Option<seq<Byte>> {
    match o
    case Some(rest) => Some(bs + rest)
    case None => None
  }

  /** Inverse of the encoding: octets of a percent-encoded string, or None when it is malformed. */
  function PercentDecode(t: string): Option<seq<Byte>>
    decreases |t|
  {
    if |t| == 0 then Some([])
    else if t[0] == '%' then
      if |t| < 3 then None
      else match (HexValue(t[1]), HexValue(t[2]))
        case (Some(hi), Some(lo)) => Prepend([hi * 16 + lo], PercentDecode(t[3..]))
        case _ => None
    else if Unreserved(t[0]) then Prepend([t[0] as int], PercentDecode(t[1..]))
    else None
  }

  lemma PrependTwice(a: seq<Byte>, b: seq<Byte>, o: Option<seq<Byte>>)
    ensures Prepend(a, Prepend(b, o)) == Prepend(a + b, o)
  {
    if o.Some? {
      assert a + (b + o.value) == (a + b) + o.value;
    }
  }

  lemma PrependNothing(o: Option<seq<Byte>>)
    ensures Prepend([], o) == o
  {
    if o.Some? {
      assert [] + o.value == o.value;
    }
  }

  lemma HexRoundTrip(b: Byte)
    ensures HexValue(HexDigit(b / 16)) == Some(b / 16)
    ensures HexValue(HexDigit(b % 16)) == Some(b % 16)
  {
  }

  lemma {:induction false} DecodePercentBytes(bs: seq<Byte>, t: string)
    ensures PercentDecode(PercentBytes(bs) + t) == Prepend(bs, PercentDecode(t))
  {
    if |bs| > 0 {
      var b := bs[0];
      var u := PercentBytes(bs[1..]) + t;
      var whole := PercentBytes(bs) + t;
      assert whole == ['%', HexDigit(b / 16), HexDigit(b % 16)] + u;
      assert whole[3..] == u;
      HexRoundTrip(b);
      assert PercentDecode(whole) == Prepend([b], PercentDecode(u));
      DecodePercentBytes(bs[1..], t);
      PrependTwice([b], bs[1..], PercentDecode(t));
      assert [b] + bs[1..] == bs;
    } else {
      PrependNothing(PercentDecode(t));
      assert PercentBytes(bs) + t == t;
    }
  }

  lemma DecodeEncodedChar(c: char, t: string)
    ensures PercentDecode(EncodeChar(c) + t) == Prepend(Utf8(c), PercentDecode(t))
  {
    if Unreserved(c) {
      var whole := [c] + t;
      assert whole[1..] == t;
    } else {
      DecodePercentBytes(Utf8(c), t);
    }
  }

  lemma {:induction false} DecodeEncodedPrefix(s: string, t: string)
    ensures PercentDecode(EncodeComponent(s) + t) == Prepend(Utf8String(s), PercentDecode(t))
    decreases |s|
  {
    if |s| > 0 {
      var rest := EncodeComponent(s[1..]);
      assert EncodeComponent(s) + t == EncodeChar(s[0]) + (rest + t);
      DecodeEncodedChar(s[0], rest + t);
      DecodeEncodedPrefix(s[1..], t);
      PrependTwice(Utf8(s[0]), Utf8String(s[1..]), PercentDecode(t));
    } else {
      PrependNothing(PercentDecode(t));
      assert EncodeComponent(s) + t == t;
    }
  }

  /** Decoding the encoding of a string gives back its UTF-8 octets. */
  lemma DecodeComponent(s: string)
    ensures PercentDecode(EncodeComponent(s)) == Some(Utf8String(s))
  {
    DecodeEncodedPrefix(s, []);
    assert EncodeComponent(s) + [] == EncodeComponent(s);
    assert Utf8String(s) + [] == Utf8String(s);
  }

  /** A string is sent verbatim exactly when all of its characters are unreserved. */
  lemma {:induction false} EncodeComponentVerbatim(s: string)
    ensures EncodeComponent(s) == s <==> forall i :: 0 <= i < |s| ==> Unreserved(s[i])
    decreases |s|
  {
    if |s| > 0 {
      EncodeComponentVerbatim(s[1..]);
      if Unreserved(s[0]) {
        assert EncodeComponent(s) == [s[0]] + EncodeComponent(s[1..]);
        assert s == [s[0]] + s[1..];
        if EncodeComponent(s) == s {
          assert EncodeComponent(s[1..]) == s[1..];
        }
        forall i | 0 <= i < |s[1..]| ensures s[1..][i] == s[i + 1] { }
      } else {
        var e := EncodeChar(s[0]);
        assert |e| >= 3;
        assert |EncodeComponent(s)| >= 3 + |s| - 1;
      }
    }
  }

  // ---- query strings ----

  function EncodePair(item: QueryItem): string {
    EncodeComponent(item.0) + "=" + EncodeComponent(item.1)
  }

  /** QUrlQuery::toString(QUrl::FullyEncoded): encoded pairs joined by '&'. */
  function EncodeQuery(items: seq<QueryItem>): (r: string)
    ensures r == [] <==> items == []
  {
    if |items| == 0 then []
    else if |items| == 1 then EncodePair(items[0])
    else EncodePair(items[0]) + "&" + EncodeQuery(items[1..])
  }

  /** Pieces of `s` between occurrences of `sep` (always at least one piece). */
  function Split(s: string, sep: char): (r: seq<string>)
    ensures |r| >= 1
    decreases |s|
  {
    if |s| == 0 then [[]]
    else
      var rest := Split(s[1..], sep);
      if s[0] == sep then [[]] + rest else [[s[0]] + rest[0]] + rest[1..]
  }

  function BeforeFirst(s: string, sep: char): string
    decreases |s|
  {
    if |s| == 0 || s[0] == sep then [] else [s[0]] + BeforeFirst(s[1..], sep)
  }

  function AfterFirst(s: string, sep: char): string
    decreases |s|
  {
    if |s| == 0 then [] else if s[0] == sep then s[1..] else AfterFirst(s[1..], sep)
  }

  type DecodedItem = (seq<Byte>, seq<Byte>)

  function DecodePair(piece: string): Option<DecodedItem> {
    match (PercentDecode(BeforeFirst(piece, '=')), PercentDecode(AfterFirst(piece, '=')))
    case (Some(k), Some(v)) => Some((k, v))
    case _ => None
  }

  function DecodePieces(pieces: seq<string>): Option<seq<DecodedItem>> {
    if |pieces| == 0 then Some([])
    else match (DecodePair(pieces[0]), DecodePieces(pieces[1..]))
      case (Some(p), Some(ps)) => Some([p] + ps)
      case _ => None
  }

  /** Decoded items of a form-encoded query string, or None when it is malformed. */
  function DecodeQuery(t: string): Option<seq<DecodedItem>> {
    if |t| == 0 then Some([]) else DecodePieces(Split(t, '&'))
  }

  /** What the receiver should see: the UTF-8 octets of every key and value, in order. */
  function Utf8Items(items: seq<QueryItem>): (r: seq<DecodedItem>)
    ensures |r| == |items|
  {
    if |items| == 0 then [] else [(Utf8String(items[0].0), Utf8String(items[0].1))] + Utf8Items(items[1..])
  }

  lemma {:induction false} SplitNoSeparator(a: string, t: string, sep: char)
    requires forall i :: 0 <= i < |a| ==> a[i] != sep
    ensures Split(a + t, sep) == [a + Split(t, sep)[0]] + Split(t, sep)[1..]
    decreases |a|
  {
    if |a| > 0 {
      var w := a + t;
      assert w[1..] == a[1..] + t;
      SplitNoSeparator(a[1..], t, sep);
      assert [a[0]] + (a[1..] + Split(t, sep)[0]) == a + Split(t, sep)[0];
    } else {
      var r := Split(t, sep);
      assert a + t == t && a + r[0] == r[0];
      assert [r[0]] + r[1..] == r;
    }
  }

  lemma {:induction false} BeforeAfterFirst(a: string, b: string, sep: char)
    requires forall i :: 0 <= i < |a| ==> a[i] != sep
    ensures BeforeFirst(a + [sep] + b, sep) == a
    ensures AfterFirst(a + [sep] + b, sep) == b
    decreases |a|
  {
    var w := a + [sep] + b;
    if |a| == 0 {
      assert w == [sep] + b && w[1..] == b;
    } else {
      assert w[1..] == a[1..] + [sep] + b;
      BeforeAfterFirst(a[1..], b, sep);
      assert [a[0]] + a[1..] == a;
    }
  }

  lemma DecodeEncodedPair(item: QueryItem)
    ensures DecodePair(EncodePair(item)) == Some((Utf8String(item.0), Utf8String(item.1)))
  {
    var k := EncodeComponent(item.0);
    BeforeAfterFirst(k, EncodeComponent(item.1), '=');
    DecodeComponent(item.0);
    DecodeComponent(item.1);
  }

  function Pieces(items: seq<QueryItem>): (r: seq<string>)
    ensures |r| == |items|
  {
    if |items| == 0 then [] else [EncodePair(items[0])] + Pieces(items[1..])
  }

  lemma EncodedPairHasNoAmpersand(item: QueryItem)
    ensures forall i :: 0 <= i < |EncodePair(item)| ==> EncodePair(item)[i] != '&'
  {
    var k, v := EncodeComponent(item.0), EncodeComponent(item.1);
    assert !Unreserved('&');
    assert forall i :: 0 <= i < |k| ==> k[i] != '&';
    assert forall i :: 0 <= i < |v| ==> v[i] != '&';
    NoCharInJoin(k, v, '=', '&');
  }

  /** A character in neither part nor the joint is not in the joined text. */
  lemma NoCharInJoin(a: string, b: string, joint: char, c: char)
    requires joint != c
    requires forall i :: 0 <= i < |a| ==> a[i] != c
    requires forall i :: 0 <= i < |b| ==> b[i] != c
    ensures forall i :: 0 <= i < |a + [joint] + b| ==> (a + [joint] + b)[i] != c
  {
    var w := a + [joint] + b;
    forall i | 0 <= i < |w| ensures w[i] != c {
      if i < |a| {
        assert w[i] == a[i];
      } else if i > |a| {
        assert w[i] == b[i - |a| - 1];
      }
    }
  }

  lemma {:induction false} SplitEncodedQuery(items: seq<QueryItem>)
    requires |items| >= 1
    ensures Split(EncodeQuery(items), '&') == Pieces(items)
    decreases |items|
  {
    var a := EncodePair(items[0]);
    EncodedPairHasNoAmpersand(items[0]);
    if |items| == 1 {
      SplitNoSeparator(a, [], '&');
      assert a + [] == a;
    } else {
      var rest := EncodeQuery(items[1..]);
      var t := "&" + rest;
      assert EncodeQuery(items) == a + t;
      SplitNoSeparator(a, t, '&');
      assert t[1..] == rest;
      assert Split(t, '&') == [[]] + Split(rest, '&');
      SplitEncodedQuery(items[1..]);
      assert a + [] == a;
    }
  }

  lemma {:induction false} DecodeEncodedPieces(items: seq<QueryItem>)
    ensures DecodePieces(Pieces(items)) == Some(Utf8Items(items))
    decreases |items|
  {
    if |items| > 0 {
      DecodeEncodedPair(items[0]);
      DecodeEncodedPieces(items[1..]);
      assert Pieces(items)[1..] == Pieces(items[1..]);
    }
  }

  /** The encoded query loses nothing: decoding it gives every item back, in order. */
  lemma QueryRoundTrip(items: seq<QueryItem>)
    ensures DecodeQuery(EncodeQuery(items)) == Some(Utf8Items(items))
  {
    if |items| > 0 {
      SplitEncodedQuery(items);
      DecodeEncodedPieces(items);
    }
  }

  // ---- URLs ----

  /** A URL as QUrl holds it: scheme (empty when none), the rest up to the query, and the query. */
  datatype Url = Url(scheme: string, hierarchy: string, query: Option<string>)

  /** QUrl::toString(QUrl::FullyEncoded). */
  function UrlText(u: Url): string {
    (if u.scheme == [] then [] else u.scheme + ":") + u.hierarchy +
    (match u.query case Some(q) => "?" + q case None => [])
  }

  /** QUrl::setQuery(QUrlQuery): replaces the query; an empty item list removes it. */
  function WithQuery(u: Url, items: seq<QueryItem>): (r: Url)
    ensures r.scheme == u.scheme && r.hierarchy == u.hierarchy
    ensures r.query.Some? <==> items != []
    ensures r.query.Some? ==> DecodeQuery(r.query.value) == Some(Utf8Items(items))
  {
    QueryRoundTrip(items);
    if items == [] then u.(query := None) else u.(query := Some(EncodeQuery(items)))
  }
}
