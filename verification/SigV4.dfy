/** SigV4 canonicalisation (internal/dns/sigv4.go): percent-encoding, the canonical query string,
    the canonical request, and the headers SignRequest sets. HMAC and SHA-256 are parameters. */
module SigV4 {
  import opened Text

  /** One byte of a Go string. */
  type Octet = c: char | c as int < 256 witness 'a'
  type Octets = seq<Octet>

  // ---------------------------------------------------------------- percent-encoding

  /** The unreserved set of section 2.3 of RFC 3986. */
  predicate Unreserved(c: Octet) {
    'A' <= c <= 'Z' || 'a' <= c <= 'z' || '0' <= c <= '9' || c in "-_.~"
  }

  /** In numbers: the letters, the digits, and the hyphen, full stop, underscore and tilde. */
  lemma UnreservedIff(c: Octet)
    ensures var n := c as int;
            Unreserved(c) <==>
              || 0x41 <= n <= 0x5A || 0x61 <= n <= 0x7A || 0x30 <= n <= 0x39
              || n == 0x2D || n == 0x2E || n == 0x5F || n == 0x7E
  {
  }

  predicate Literal(c: Octet, encodeSlash: bool) {
    Unreserved(c) || (c == '/' && !encodeSlash)
  }

  function HexDigit(n: nat): Octet
    requires n < 16
  {
    if n < 10 then ('0' as int + n) as char else ('A' as int + n - 10) as char
  }

  function EncodeOctet(c: Octet, encodeSlash: bool): Octets {
    if Literal(c, encodeSlash) then [c] else ['%', HexDigit(c as int / 16), HexDigit(c as int % 16)]
  }

  function URIEncode(s: Octets, encodeSlash: bool): Octets {
    if s == [] then [] else EncodeOctet(s[0], encodeSlash) + URIEncode(s[1..], encodeSlash)
  }

  lemma {:induction false} EncodeAppend(a: Octets, b: Octets, encodeSlash: bool)
    ensures URIEncode(a + b, encodeSlash) == URIEncode(a, encodeSlash) + URIEncode(b, encodeSlash)
  {
    if a == [] {
      assert a + b == b;
    } else {
      assert (a + b)[1..] == a[1..] + b;
      EncodeAppend(a[1..], b, encodeSlash);
    }
  }

  lemma EncodeNext(s: Octets, i: nat, encodeSlash: bool)
    requires i < |s|
    ensures URIEncode(s[..i + 1], encodeSlash) == URIEncode(s[..i], encodeSlash) + EncodeOctet(s[i], encodeSlash)
  {
    assert s[..i + 1] == s[..i] + [s[i]];
    EncodeAppend(s[..i], [s[i]], encodeSlash);
    assert [s[i]][1..] == [];
  }

  method AwsURIEncode(s: Octets, encodeSlash: bool) returns (b: Octets)
    ensures b == URIEncode(s, encodeSlash)
  {
    b := [];
    for i := 0 to |s|
      invariant b == URIEncode(s[..i], encodeSlash)
    {
      var c := s[i];
      EncodeNext(s, i, encodeSlash);
      if 'A' <= c <= 'Z' || 'a' <= c <= 'z' || '0' <= c <= '9' || c == '-' || c == '_' || c == '.' || c == '~' {
        b := b + [c];
      } else if c == '/' && !encodeSlash {
        b := b + [c];
      } else {
        b := b + ['%', HexDigit(c as int / 16), HexDigit(c as int % 16)];
      }
    }
    assert s[..|s|] == s;
  }

  /** The value of a hexadecimal digit of either case (section 2.1 of RFC 3986). */
  function HexValue(c: Octet): (v: Option<nat>)
    ensures v.Some? ==> v.value < 16
  {
    if '0' <= c <= '9' then Some(c as int - '0' as int)
    else if 'A' <= c <= 'F' then Some(c as int - 'A' as int + 10)
    else if 'a' <= c <= 'f' then Some(c as int - 'a' as int + 10)
    else None
  }

  /** The byte that an escape with these two hexadecimal digits stands for. */
  function EscapedOctet(a: Octet, b: Octet): Octet
    requires HexValue(a).Some? && HexValue(b).Some?
  {
    (16 * HexValue(a).value + HexValue(b).value) as char
  }

  /** Percent-decoding; an escape without two hexadecimal digits is an error. */
  function PercentDecode(t: Octets): Option<Octets> {
    if t == [] then Some([])
    else if t[0] != '%' then
      var rest := PercentDecode(t[1..]);
      if rest.Some? then Some([t[0]] + rest.value) else None
    else if |t| < 3 || HexValue(t[1]).None? || HexValue(t[2]).None? then None
    else
      var rest := PercentDecode(t[3..]);
      if rest.Some? then Some([EscapedOctet(t[1], t[2])] + rest.value) else None
  }

  lemma HexRoundTrip(c: Octet)
    ensures HexValue(HexDigit(c as int / 16)) == Some(c as int / 16)
    ensures HexValue(HexDigit(c as int % 16)) == Some(c as int % 16)
    ensures EscapedOctet(HexDigit(c as int / 16), HexDigit(c as int % 16)) == c
  {
  }

  /** Percent-decoding inverts the encoding, in both slash modes. */
  lemma {:induction false} DecodeEncode(s: Octets, encodeSlash: bool)
    ensures PercentDecode(URIEncode(s, encodeSlash)) == Some(s)
  {
    if s != [] {
      DecodeEncode(s[1..], encodeSlash);
      var rest := URIEncode(s[1..], encodeSlash);
      var t := EncodeOctet(s[0], encodeSlash) + rest;
      HexRoundTrip(s[0]);
      assert t[|EncodeOctet(s[0], encodeSlash)|..] == rest;
      assert [s[0]] + s[1..] == s;
    }
  }

  lemma EncodeInjective(a: Octets, b: Octets, encodeSlash: bool)
    requires URIEncode(a, encodeSlash) == URIEncode(b, encodeSlash)
    ensures a == b
  {
    DecodeEncode(a, encodeSlash);
    DecodeEncode(b, encodeSlash);
  }

  predicate UpperHex(c: Octet) {
    '0' <= c <= '9' || 'A' <= c <= 'F'
  }

  /** Literal bytes, and upper-case escapes of the other bytes. */
  predicate Encoded(t: Octets, encodeSlash: bool) {
    t == []
    || (Literal(t[0], encodeSlash) && Encoded(t[1..], encodeSlash))
    || (&& |t| >= 3 && t[0] == '%' && UpperHex(t[1]) && UpperHex(t[2])
        && !Literal(EscapedOctet(t[1], t[2]), encodeSlash)
        && Encoded(t[3..], encodeSlash))
  }

  /** The image of the encoding is exactly the strings of that form. */
  lemma {:induction false} EncodeImage(t: Octets, encodeSlash: bool)
    ensures Encoded(t, encodeSlash) <==> exists s :: URIEncode(s, encodeSlash) == t
  {
    if Encoded(t, encodeSlash) {
      EncodedIsImage(t, encodeSlash);
      assert URIEncode(PercentDecode(t).value, encodeSlash) == t;
    } else {
      forall s: Octets
        ensures URIEncode(s, encodeSlash) != t
      {
        ImageIsEncoded(s, encodeSlash);
      }
    }
  }

  lemma {:induction false} EncodedIsImage(t: Octets, encodeSlash: bool)
    requires Encoded(t, encodeSlash)
    ensures IsImage(t, encodeSlash)
  {
    if t != [] {
      if Literal(t[0], encodeSlash) {
        EncodedIsImage(t[1..], encodeSlash);
        LiteralIsImage(t[0], t[1..], encodeSlash);
        assert [t[0]] + t[1..] == t;
      } else {
        EncodedIsImage(t[3..], encodeSlash);
        EscapeIsImage(t[1], t[2], t[3..], encodeSlash);
        assert ['%', t[1], t[2]] + t[3..] == t;
      }
    }
  }

  ghost predicate IsImage(t: Octets, encodeSlash: bool) {
    PercentDecode(t).Some? && URIEncode(PercentDecode(t).value, encodeSlash) == t
  }

  lemma {:induction false} LiteralIsImage(c: Octet, rest: Octets, encodeSlash: bool)
    requires Literal(c, encodeSlash) && IsImage(rest, encodeSlash)
    ensures IsImage([c] + rest, encodeSlash)
  {
    assert ([c] + rest)[1..] == rest;
    EncodeCons(c, PercentDecode(rest).value, encodeSlash);
  }

  lemma {:induction false} EscapeIsImage(a: Octet, b: Octet, rest: Octets, encodeSlash: bool)
    requires UpperHex(a) && UpperHex(b) && !Literal(EscapedOctet(a, b), encodeSlash) && IsImage(rest, encodeSlash)
    ensures IsImage(['%', a, b] + rest, encodeSlash)
  {
    assert (['%', a, b] + rest)[3..] == rest;
    EscapeRoundTrip(a, b);
    EncodeCons(EscapedOctet(a, b), PercentDecode(rest).value, encodeSlash);
  }

  lemma {:induction false} EncodeCons(c: Octet, s: Octets, encodeSlash: bool)
    ensures URIEncode([c] + s, encodeSlash) == EncodeOctet(c, encodeSlash) + URIEncode(s, encodeSlash)
  {
    assert ([c] + s)[1..] == s;
  }

  lemma EscapeRoundTrip(a: Octet, b: Octet)
    requires UpperHex(a) && UpperHex(b)
    ensures HexDigit(EscapedOctet(a, b) as int / 16) == a && HexDigit(EscapedOctet(a, b) as int % 16) == b
  {
  }

  lemma {:induction false} ImageIsEncoded(s: Octets, encodeSlash: bool)
    ensures Encoded(URIEncode(s, encodeSlash), encodeSlash)
  {
    if s != [] {
      ImageIsEncoded(s[1..], encodeSlash);
      HexRoundTrip(s[0]);
      var rest := URIEncode(s[1..], encodeSlash);
      var t := EncodeOctet(s[0], encodeSlash) + rest;
      assert t[|EncodeOctet(s[0], encodeSlash)|..] == rest;
    }
  }

  /** The bytes of an encoding. */
  lemma {:induction false} EncodeAlphabet(s: Octets, encodeSlash: bool)
    ensures forall c :: c in URIEncode(s, encodeSlash) ==> Literal(c, encodeSlash) || c == '%'
    ensures |URIEncode(s, encodeSlash)| >= |s|
  {
    if s != [] {
      EncodeAlphabet(s[1..], encodeSlash);
    }
  }

  predicate AllLiteral(s: Octets, encodeSlash: bool) {
    forall i :: 0 <= i < |s| ==> Literal(s[i], encodeSlash)
  }

  /** The encoding changes nothing exactly when every byte is in its literal set. */
  lemma {:induction false} EncodeIdentityIff(s: Octets, encodeSlash: bool)
    ensures URIEncode(s, encodeSlash) == s <==> AllLiteral(s, encodeSlash)
  {
    if s != [] {
      EncodeIdentityIff(s[1..], encodeSlash);
      EncodeAlphabet(s[1..], encodeSlash);
      assert s == [s[0]] + s[1..];
    }
  }

  // ---------------------------------------------------------------- the canonical query string

  datatype Pair = Pair(k: Octets, v: Octets)

  function SegmentPair(seg: Octets): Pair {
    var cut := Cut<Octet>(seg, '=');
    if cut.Some? then Pair(cut.value.0, cut.value.1) else Pair(seg, [])
  }

  function EncodePair(p: Pair): Pair {
    Pair(URIEncode(p.k, true), URIEncode(p.v, true))
  }

  /** The encoded pairs of the non-empty segments, in order. */
  function PairsOf(segs: seq<Octets>): seq<Pair> {
    if segs == [] then [] else
      SegmentPairs(segs[0]) + PairsOf(segs[1..])
  }

  lemma {:induction false} PairsAppend(a: seq<Octets>, b: seq<Octets>)
    ensures PairsOf(a + b) == PairsOf(a) + PairsOf(b)
  {
    if a == [] {
      assert a + b == b;
    } else {
      assert (a + b)[1..] == a[1..] + b;
      PairsAppend(a[1..], b);
    }
  }

  function SegmentPairs(seg: Octets): seq<Pair> {
    if seg == [] then [] else [EncodePair(SegmentPair(seg))]
  }

  lemma PairsNext(segs: seq<Octets>, i: nat)
    requires i < |segs|
    ensures PairsOf(segs[..i + 1]) == PairsOf(segs[..i]) + SegmentPairs(segs[i])
  {
    assert segs[..i + 1] == segs[..i] + [segs[i]];
    var last: seq<Octets> := [segs[i]];
    PairsAppend(segs[..i], last);
    assert PairsOf(last) == SegmentPairs(segs[i]) + PairsOf(last[1..]);
  }

  function EncodedPairs(raw: Octets): seq<Pair> {
    PairsOf(Split<Octet>(raw, '&'))
  }

  /** Bytewise string order. */
  predicate Less(a: Octets, b: Octets) {
    b != [] && (a == [] || a[0] < b[0] || (a[0] == b[0] && Less(a[1..], b[1..])))
  }

  predicate FirstDifference(a: Octets, b: Octets, i: nat) {
    i <= |a| && i < |b| && a[..i] == b[..i] && (i == |a| || a[i] < b[i])
  }

  /** At the first byte where the two differ, `a` has the smaller one, or has ended. */
  lemma {:induction false} LessIff(a: Octets, b: Octets)
    ensures Less(a, b) <==> exists i: nat :: FirstDifference(a, b, i)
  {
    if a == [] || b == [] || a[0] != b[0] {
      assert b != [] && (a == [] || a[0] < b[0]) ==> FirstDifference(a, b, 0);
      forall i: nat | FirstDifference(a, b, i)
        ensures i == 0
      {
        if i > 0 {
          DifferenceLater(a, b, i);
        }
      }
    } else {
      LessIff(a[1..], b[1..]);
      if Less(a, b) {
        var i: nat :| FirstDifference(a[1..], b[1..], i);
        assert a[..i + 1] == [a[0]] + a[1..][..i] && b[..i + 1] == [b[0]] + b[1..][..i];
        assert FirstDifference(a, b, i + 1);
      }
      if i: nat :| FirstDifference(a, b, i) {
        DifferenceLater(a, b, i);
      }
    }
  }

  lemma DifferenceLater(a: Octets, b: Octets, i: nat)
    requires FirstDifference(a, b, i) && (i > 0 || (a != [] && a[0] == b[0]))
    ensures i > 0 && a != [] && b != [] && a[0] == b[0] && FirstDifference(a[1..], b[1..], i - 1)
  {
    assert a[..i][0] == b[..i][0];
    assert a[1..][..i - 1] == a[..i][1..] && b[1..][..i - 1] == b[..i][1..];
  }

  /** How a part of the query between two "&" is read: cut at its first "=", a value missing where there
      is none, and nothing where it is empty. */
  lemma SegmentReads(key: Octets, value: Octets)
    requires '=' !in key
    ensures SegmentPairs(key + ['='] + value) == [Pair(URIEncode(key, true), URIEncode(value, true))]
    ensures key != [] ==> SegmentPairs(key) == [Pair(URIEncode(key, true), [])]
    ensures SegmentPairs([]) == []
  {
    CutAt<Octet>(key, value, '=');
  }

  ghost predicate SortedByKey(ps: seq<Pair>) {
    forall i, j :: 0 <= i < j < |ps| ==> !Less(ps[j].k, ps[i].k)
  }

  /** All that sort.Slice promises: it is not stable. */
  ghost predicate SortOf(qs: seq<Pair>, ps: seq<Pair>) {
    SortedByKey(qs) && multiset(qs) == multiset(ps)
  }

  function PairText(p: Pair): Octets {
    p.k + ['='] + p.v
  }

  function Texts(ps: seq<Pair>): (ts: seq<Octets>)
    ensures |ts| == |ps|
    ensures forall i :: 0 <= i < |ps| ==> ts[i] == PairText(ps[i])
  {
    if ps == [] then [] else [PairText(ps[0])] + Texts(ps[1..])
  }

  function JoinPairs(ps: seq<Pair>): Octets {
    Join<Octet>(Texts(ps), '&')
  }

  lemma JoinNext(ps: seq<Pair>, i: nat)
    requires i < |ps|
    ensures JoinPairs(ps[..i + 1]) == if i == 0 then PairText(ps[0]) else JoinPairs(ps[..i]) + ['&'] + PairText(ps[i])
  {
    assert Texts(ps[..i + 1]) == Texts(ps[..i]) + [PairText(ps[i])];
    JoinSnoc<Octet>(Texts(ps[..i]), PairText(ps[i]), '&');
  }

  ghost predicate IsCanonicalQuery(raw: Octets, q: Octets) {
    exists ps :: SortOf(ps, EncodedPairs(raw)) && q == JoinPairs(ps)
  }

  /** By key, and by value where keys are equal: the order signature version 4 asks for. */
  predicate PairLess(a: Pair, b: Pair) {
    Less(a.k, b.k) || (a.k == b.k && Less(a.v, b.v))
  }

  ghost predicate SortedByPair(ps: seq<Pair>) {
    forall i, j :: 0 <= i < j < |ps| ==> !PairLess(ps[j], ps[i])
  }

  /** One sorted arrangement: insertion by key, then value. */
  function Insert(p: Pair, ps: seq<Pair>): seq<Pair> {
    if ps == [] || !PairLess(ps[0], p) then [p] + ps else [ps[0]] + Insert(p, ps[1..])
  }

  function InsertionSort(ps: seq<Pair>): seq<Pair> {
    if ps == [] then [] else Insert(ps[0], InsertionSort(ps[1..]))
  }

  lemma {:induction false} LessTotal(a: Octets, b: Octets)
    ensures Less(a, b) ==> !Less(b, a)
    ensures !Less(a, b) && !Less(b, a) ==> a == b
    ensures !Less(a, a)
  {
    if a != [] && b != [] {
      LessTotal(a[1..], b[1..]);
      LessTotal(a[1..], a[1..]);
      assert a == [a[0]] + a[1..] && b == [b[0]] + b[1..];
    } else if a != [] {
      LessTotal(a[1..], a[1..]);
    }
  }

  lemma {:induction false} LessTransitive(a: Octets, b: Octets, c: Octets)
    ensures !Less(b, a) && !Less(c, b) ==> !Less(c, a)
    decreases |a| + |b| + |c|
  {
    if a != [] && b != [] && c != [] {
      LessTransitive(a[1..], b[1..], c[1..]);
    }
  }

  lemma PairTotal(a: Pair, b: Pair)
    ensures PairLess(a, b) ==> !PairLess(b, a)
    ensures !PairLess(a, b) && !PairLess(b, a) ==> a == b
  {
    LessTotal(a.k, b.k);
    LessTotal(a.v, b.v);
  }

  lemma PairTransitive(a: Pair, b: Pair, c: Pair)
    ensures !PairLess(b, a) && !PairLess(c, b) ==> !PairLess(c, a)
  {
    LessTransitive(a.k, b.k, c.k);
    LessTransitive(a.v, b.v, c.v);
    LessTransitive(c.k, a.k, b.k);
    LessTransitive(b.k, c.k, a.k);
    LessTotal(a.k, b.k);
    LessTotal(b.k, c.k);
    LessTotal(a.k, c.k);
  }

  lemma {:induction false} InsertSorts(p: Pair, ps: seq<Pair>)
    requires SortedByPair(ps)
    ensures SortedByPair(Insert(p, ps)) && multiset(Insert(p, ps)) == multiset(ps) + multiset{p}
  {
    if ps != [] && PairLess(ps[0], p) {
      SortedTail(ps);
      InsertSorts(p, ps[1..]);
      PairTotal(ps[0], p);
      PrependSorts(ps[0], Insert(p, ps[1..]), multiset(ps[1..]) + multiset{p});
    } else if ps != [] {
      forall j | 0 <= j < |ps|
        ensures !PairLess(ps[j], p)
      {
        if j > 0 {
          PairTransitive(p, ps[0], ps[j]);
        }
      }
      PrependSorts(p, ps, multiset(ps));
    }
  }

  lemma SortedTail(ps: seq<Pair>)
    requires ps != [] && SortedByPair(ps)
    ensures SortedByPair(ps[1..]) && multiset(ps) == multiset(ps[1..]) + multiset{ps[0]}
    ensures forall x :: x in multiset(ps[1..]) ==> !PairLess(x, ps[0])
  {
    assert ps == [ps[0]] + ps[1..];
  }

  lemma PrependSorts(p: Pair, ps: seq<Pair>, members: multiset<Pair>)
    requires SortedByPair(ps) && multiset(ps) == members && forall x :: x in members ==> !PairLess(x, p)
    ensures SortedByPair([p] + ps) && multiset([p] + ps) == members + multiset{p}
  {
    forall j | 0 <= j < |ps|
      ensures !PairLess(ps[j], p)
    {
      assert ps[j] in members;
    }
  }

  lemma {:induction false} InsertionSortSorts(ps: seq<Pair>)
    ensures SortedByPair(InsertionSort(ps)) && SortOf(InsertionSort(ps), ps)
  {
    if ps != [] {
      InsertionSortSorts(ps[1..]);
      InsertSorts(ps[0], InsertionSort(ps[1..]));
      assert ps == [ps[0]] + ps[1..];
    }
  }

  /** The parsing loop: skip empty segments, cut the others at the first "=", encode both parts. */
  method ParseQuery(raw: Octets) returns (pairs: seq<Pair>)
    ensures pairs == EncodedPairs(raw)
  {
    var segs := Split<Octet>(raw, '&');
    pairs := [];
    for i := 0 to |segs|
      invariant pairs == PairsOf(segs[..i])
    {
      var seg := segs[i];
      PairsNext(segs, i);
      if seg != [] {
        var p := SegmentPair(seg);
        var k := AwsURIEncode(p.k, true);
        var v := AwsURIEncode(p.v, true);
        pairs := pairs + [Pair(k, v)];
      }
    }
    assert segs[..|segs|] == segs;
  }

  /** The rendering loop. */
  method RenderPairs(ps: seq<Pair>) returns (b: Octets)
    ensures b == JoinPairs(ps)
  {
    b := [];
    for i := 0 to |ps|
      invariant b == JoinPairs(ps[..i])
    {
      JoinNext(ps, i);
      if i > 0 {
        b := b + ['&'];
      }
      b := b + PairText(ps[i]);
    }
    assert ps[..|ps|] == ps;
  }

  /** Parse, sort, render; any sorted arrangement of the pairs satisfies the contract. */
  method CanonicalQueryString(raw: Octets) returns (q: Octets)
    ensures IsCanonicalQuery(raw, q)
  {
    if raw == [] {
      q := [];
      assert EncodedPairs(raw) == [] && SortOf([], EncodedPairs(raw)) && q == JoinPairs([]);
      return;
    }
    var pairs := ParseQuery(raw);
    var sorted := InsertionSort(pairs);
    InsertionSortSorts(pairs);
    q := RenderPairs(sorted);
  }

  // ---------------------------------------------------------------- reading the query string back

  function PairsOfTexts(ts: seq<Octets>): seq<Pair> {
    if ts == [] then [] else [SegmentPair(ts[0])] + PairsOfTexts(ts[1..])
  }

  /** Split on "&", then each part on its first "=". */
  function SplitPairs(q: Octets): seq<Pair> {
    if q == [] then [] else PairsOfTexts(Split<Octet>(q, '&'))
  }

  predicate Plain(c: Octet) {
    Unreserved(c) || c == '%'
  }

  ghost predicate PlainText(t: Octets) {
    forall c :: c in t ==> Plain(c)
  }

  /** Both parts made of bytes that an encoding can contain. */
  ghost predicate PlainPairs(ps: seq<Pair>) {
    forall i :: 0 <= i < |ps| ==> PlainText(ps[i].k) && PlainText(ps[i].v)
  }

  lemma PairTextRoundTrip(p: Pair)
    requires PlainText(p.k) && PlainText(p.v)
    ensures SegmentPair(PairText(p)) == p && '&' !in PairText(p)
  {
    assert !Plain('=') && !Plain('&');
    CutAt<Octet>(p.k, p.v, '=');
  }

  lemma {:induction false} TextsRoundTrip(ps: seq<Pair>)
    requires PlainPairs(ps)
    ensures PairsOfTexts(Texts(ps)) == ps
  {
    if ps != [] {
      PairTextRoundTrip(ps[0]);
      TextsRoundTrip(ps[1..]);
      assert Texts(ps)[0] == PairText(ps[0]) && Texts(ps)[1..] == Texts(ps[1..]);
      assert PairsOfTexts(Texts(ps)) == [ps[0]] + ps[1..];
    }
  }

  lemma TextsAreFree(ps: seq<Pair>)
    requires PlainPairs(ps)
    ensures Free(Texts(ps), '&')
  {
    forall i | 0 <= i < |ps|
      ensures '&' !in Texts(ps)[i]
    {
      PairTextRoundTrip(ps[i]);
    }
  }

  lemma SplitPairsJoinPairs(ps: seq<Pair>)
    requires PlainPairs(ps)
    ensures SplitPairs(JoinPairs(ps)) == ps
  {
    if ps != [] {
      TextsRoundTrip(ps);
      TextsAreFree(ps);
      SplitJoin<Octet>(Texts(ps), '&');
      if |ps| == 1 {
        assert JoinPairs(ps) == PairText(ps[0]);
      }
      assert JoinPairs(ps) != [];
    }
  }

  lemma {:induction false} PairsArePlain(segs: seq<Octets>)
    ensures PlainPairs(PairsOf(segs))
  {
    if segs != [] {
      PairsArePlain(segs[1..]);
      var p := SegmentPair(segs[0]);
      EncodeAlphabet(p.k, true);
      EncodeAlphabet(p.v, true);
    }
  }

  lemma SortIsPlain(qs: seq<Pair>, ps: seq<Pair>)
    requires multiset(qs) == multiset(ps) && PlainPairs(ps)
    ensures PlainPairs(qs)
  {
    forall i | 0 <= i < |qs|
      ensures PlainText(qs[i].k) && PlainText(qs[i].v)
    {
      assert qs[i] in multiset(ps);
    }
  }

  lemma SortReadsBack(raw: Octets, ps: seq<Pair>)
    requires SortOf(ps, EncodedPairs(raw))
    ensures SplitPairs(JoinPairs(ps)) == ps
  {
    PairsArePlain(Split<Octet>(raw, '&'));
    SortIsPlain(ps, EncodedPairs(raw));
    SplitPairsJoinPairs(ps);
  }

  /** Splitting any canonical query string gives back exactly the sorted encoded pairs. */
  lemma QueryReadsBack(raw: Octets, q: Octets)
    requires IsCanonicalQuery(raw, q)
    ensures SortOf(SplitPairs(q), EncodedPairs(raw)) && q == JoinPairs(SplitPairs(q))
  {
    var ps :| SortOf(ps, EncodedPairs(raw)) && q == JoinPairs(ps);
    SortReadsBack(raw, ps);
  }

  // ---------------------------------------------------------------- when the result is determined

  /** Pairs with the same key are the same pair. */
  ghost predicate KeysDecide(ps: seq<Pair>) {
    forall x, y :: x in multiset(ps) && y in multiset(ps) && x.k == y.k ==> x == y
  }

  lemma RemoveAt<T>(s: seq<T>, i: nat)
    requires i < |s|
    ensures multiset(s[..i] + s[i + 1..]) == multiset(s) - multiset{s[i]}
    ensures i == 0 ==> multiset(s[1..]) == multiset(s) - multiset{s[0]}
  {
    assert s == s[..i] + [s[i]] + s[i + 1..];
    assert s[..0] + s[1..] == s[1..];
  }

  lemma SameHeadAndTail(a: seq<Pair>, b: seq<Pair>)
    requires a != [] && b != [] && a[0] == b[0] && a[1..] == b[1..]
    ensures a == b
  {
    assert a == [a[0]] + a[1..] && b == [b[0]] + b[1..];
  }

  lemma TailSorted(ps: seq<Pair>)
    requires ps != [] && SortedByKey(ps) && KeysDecide(ps)
    ensures SortedByKey(ps[1..]) && KeysDecide(ps[1..])
    ensures multiset(ps[1..]) == multiset(ps) - multiset{ps[0]}
  {
    RemoveAt(ps, 0);
  }

  lemma {:induction false} SortedUnique(a: seq<Pair>, b: seq<Pair>)
    requires SortedByKey(a) && SortedByKey(b) && multiset(a) == multiset(b) && KeysDecide(a)
    ensures a == b
  {
    assert |a| == |multiset(a)| == |multiset(b)| == |b|;
    if a != [] {
      LeastFirst(a, b);
      assert KeysDecide(b);
      TailSorted(a);
      TailSorted(b);
      SortedUnique(a[1..], b[1..]);
      SameHeadAndTail(a, b);
    }
  }

  lemma LeastFirst(a: seq<Pair>, b: seq<Pair>)
    requires a != [] && b != [] && SortedByKey(a) && SortedByKey(b) && multiset(a) == multiset(b) && KeysDecide(a)
    ensures a[0] == b[0]
  {
    assert a[0] in multiset(b) && b[0] in multiset(a);
    var j :| 0 <= j < |b| && b[j] == a[0];
    var i :| 0 <= i < |a| && a[i] == b[0];
    LessTotal(a[0].k, a[0].k);
    LessTotal(a[0].k, b[0].k);
    LessTotal(b[0].k, b[0].k);
  }

  lemma PairsWithout(segs: seq<Octets>, j: nat)
    requires j < |segs|
    ensures multiset(PairsOf(segs)) == multiset(SegmentPairs(segs[j])) + multiset(PairsOf(segs[..j] + segs[j + 1..]))
  {
    assert segs == segs[..j + 1] + segs[j + 1..];
    PairsAppend(segs[..j + 1], segs[j + 1..]);
    PairsNext(segs, j);
    PairsAppend(segs[..j], segs[j + 1..]);
    MiddleOut(PairsOf(segs[..j]), SegmentPairs(segs[j]), PairsOf(segs[j + 1..]));
  }

  lemma MiddleOut<T>(a: seq<T>, b: seq<T>, c: seq<T>)
    ensures multiset(a + b + c) == multiset(b) + multiset(a + c)
  {
  }

  lemma {:induction false} MultisetOfPairs(a: seq<Octets>, b: seq<Octets>)
    requires multiset(a) == multiset(b)
    ensures multiset(PairsOf(a)) == multiset(PairsOf(b))
  {
    assert |a| == |multiset(a)| == |multiset(b)| == |b|;
    if a != [] {
      assert a[0] in multiset(b);
      var j :| 0 <= j < |b| && b[j] == a[0];
      SameWithout(a, b, j);
      MultisetOfPairs(a[1..], b[..j] + b[j + 1..]);
      PairsWithout(b, j);
      PairsWithoutFirst(a);
    }
  }

  lemma SameWithout<T>(a: seq<T>, b: seq<T>, j: nat)
    requires a != [] && j < |b| && b[j] == a[0] && multiset(a) == multiset(b)
    ensures multiset(a[1..]) == multiset(b[..j] + b[j + 1..])
  {
    RemoveAt(a, 0);
    RemoveAt(b, j);
    assert a[..0] + a[1..] == a[1..];
  }

  lemma PairsWithoutFirst(segs: seq<Octets>)
    requires segs != []
    ensures multiset(PairsOf(segs)) == multiset(SegmentPairs(segs[0])) + multiset(PairsOf(segs[1..]))
  {
  }

  /** With keys that decide their pairs, the canonical query string does not depend on the order of
      the input segments, nor on how the sort arranges equal keys. */
  lemma QueryOrderFree(raw1: Octets, q1: Octets, raw2: Octets, q2: Octets)
    requires IsCanonicalQuery(raw1, q1) && IsCanonicalQuery(raw2, q2)
    requires multiset(Split<Octet>(raw1, '&')) == multiset(Split<Octet>(raw2, '&'))
    requires KeysDecide(EncodedPairs(raw1))
    ensures q1 == q2
  {
    QueryReadsBack(raw1, q1);
    QueryReadsBack(raw2, q2);
    MultisetOfPairs(Split<Octet>(raw1, '&'), Split<Octet>(raw2, '&'));
    assert KeysDecide(SplitPairs(q1));
    SortedUnique(SplitPairs(q1), SplitPairs(q2));
  }

  /** What sort.Slice promises leaves one possible result exactly when no key occurs with two different
      values: the code compares keys only, and the sort need not be stable. (A given release of Go
      always makes the same choice; which one is not documented.) */
  lemma QueryDeterminedIff(raw: Octets)
    ensures (forall q1, q2 :: IsCanonicalQuery(raw, q1) && IsCanonicalQuery(raw, q2) ==> q1 == q2)
              <==> KeysDecide(EncodedPairs(raw))
  {
    if KeysDecide(EncodedPairs(raw)) {
      forall q1, q2 | IsCanonicalQuery(raw, q1) && IsCanonicalQuery(raw, q2)
        ensures q1 == q2
      {
        QueryOrderFree(raw, q1, raw, q2);
      }
    } else {
      var q1, q2 := TwoResults(raw);
    }
  }

  lemma SwapKeepsSort(ps: seq<Pair>, i: nat, j: nat)
    requires i < |ps| && j < |ps| && ps[i].k == ps[j].k && SortedByKey(ps)
    ensures var qs := ps[i := ps[j]][j := ps[i]];
            SortedByKey(qs) && multiset(qs) == multiset(ps)
  {
    var qs := ps[i := ps[j]][j := ps[i]];
    assert forall n :: 0 <= n < |ps| ==> qs[n].k == ps[n].k;
    forall m, n | 0 <= m < n < |qs|
      ensures !Less(qs[n].k, qs[m].k)
    {
      assert qs[n].k == ps[n].k && qs[m].k == ps[m].k;
    }
  }

  ghost function IndexOf(ps: seq<Pair>, x: Pair): (i: nat)
    requires x in multiset(ps)
    ensures i < |ps| && ps[i] == x
  {
    var i :| 0 <= i < |ps| && ps[i] == x;
    i
  }

  lemma ArrangementsDiffer(raw: Octets, ps: seq<Pair>, i: nat, j: nat) returns (q1: Octets, q2: Octets)
    requires SortOf(ps, EncodedPairs(raw)) && i < |ps| && j < |ps| && ps[i].k == ps[j].k && ps[i] != ps[j]
    ensures IsCanonicalQuery(raw, q1) && IsCanonicalQuery(raw, q2) && q1 != q2
  {
    var qs := ps[i := ps[j]][j := ps[i]];
    assert qs[i] != ps[i];
    SwapKeepsSort(ps, i, j);
    q1, q2 := JoinPairs(ps), JoinPairs(qs);
    RenderingsDiffer(raw, ps, qs);
    SortIsCanonical(raw, ps);
    SortIsCanonical(raw, qs);
  }

  lemma SortIsCanonical(raw: Octets, ps: seq<Pair>)
    requires SortOf(ps, EncodedPairs(raw))
    ensures IsCanonicalQuery(raw, JoinPairs(ps))
  {
  }

  lemma RenderingsDiffer(raw: Octets, ps: seq<Pair>, qs: seq<Pair>)
    requires SortOf(ps, EncodedPairs(raw)) && SortOf(qs, EncodedPairs(raw)) && ps != qs
    ensures JoinPairs(ps) != JoinPairs(qs)
  {
    SortReadsBack(raw, ps);
    SortReadsBack(raw, qs);
  }

  lemma TwoResults(raw: Octets) returns (q1: Octets, q2: Octets)
    requires !KeysDecide(EncodedPairs(raw))
    ensures IsCanonicalQuery(raw, q1) && IsCanonicalQuery(raw, q2) && q1 != q2
  {
    var all := EncodedPairs(raw);
    var ps := InsertionSort(all);
    InsertionSortSorts(all);
    var x: Pair, y: Pair :| x in multiset(all) && y in multiset(all) && x.k == y.k && x != y;
    var i, j := IndexOf(ps, x), IndexOf(ps, y);
    q1, q2 := ArrangementsDiffer(raw, ps, i, j);
  }

  // ---------------------------------------------------------------- encoding without decoding first

  /** The text that a part of a query string stands for: url.Values.Encode writes a space as "+" and
      escapes what is not plain; an escape without two hexadecimal digits is an error. */
  function QueryDecode(t: Octets): Option<Octets> {
    if t == [] then Some([])
    else if t[0] != '%' then
      var rest := QueryDecode(t[1..]);
      if rest.Some? then Some([if t[0] == '+' then ' ' else t[0]] + rest.value) else None
    else if |t| < 3 || HexValue(t[1]).None? || HexValue(t[2]).None? then None
    else
      var rest := QueryDecode(t[3..]);
      if rest.Some? then Some([EscapedOctet(t[1], t[2])] + rest.value) else None
  }

  /** Every "%" starts an escape. */
  predicate WellFormed(t: Octets) {
    QueryDecode(t).Some?
  }

  /** A part of the query as it was meant. */
  function Meant(t: Octets): Octets {
    if WellFormed(t) then QueryDecode(t).value else t
  }

  function MeantPair(p: Pair): Pair {
    Pair(Meant(p.k), Meant(p.v))
  }

  /** The pairs that signature version 4 asks for: each part decoded, then encoded once. */
  function SpecPairsOf(segs: seq<Octets>): seq<Pair> {
    if segs == [] then [] else SpecSegment(segs[0]) + SpecPairsOf(segs[1..])
  }

  function SpecSegment(seg: Octets): seq<Pair> {
    if seg == [] then [] else [EncodePair(MeantPair(SegmentPair(seg)))]
  }

  function SpecPairs(raw: Octets): seq<Pair> {
    SpecPairsOf(Split<Octet>(raw, '&'))
  }

  /** Signature version 4 sorts by name, and equal names by value. */
  ghost predicate IsSpecQuery(raw: Octets, q: Octets) {
    exists ps :: SortedByPair(ps) && multiset(ps) == multiset(SpecPairs(raw)) && q == JoinPairs(ps)
  }

  predicate AllWellFormed(segs: seq<Octets>) {
    forall i :: 0 <= i < |segs| ==> WellFormed(SegmentPair(segs[i]).k) && WellFormed(SegmentPair(segs[i]).v)
  }

  /** A digit of an escape is one byte of the encoding, the "%" before it is three. */
  lemma {:induction false} EscapeGrows(t: Octets, encodeSlash: bool)
    requires |t| >= 3 && t[0] == '%' && HexValue(t[1]).Some? && HexValue(t[2]).Some?
    ensures |URIEncode(t, encodeSlash)| == 5 + |URIEncode(t[3..], encodeSlash)|
  {
    assert !Literal('%', encodeSlash) && Literal(t[1], encodeSlash) && Literal(t[2], encodeSlash);
    var rest := t[3..];
    assert t == [t[0]] + ([t[1]] + ([t[2]] + rest));
    EncodeCons(t[2], rest, encodeSlash);
    EncodeCons(t[1], [t[2]] + rest, encodeSlash);
    EncodeCons(t[0], [t[1]] + ([t[2]] + rest), encodeSlash);
  }

  /** Encoding a text that was not decoded first never gives less, and more exactly when there is an
      escape. */
  lemma {:induction false} EncodedTwiceGrows(t: Octets, encodeSlash: bool)
    requires WellFormed(t)
    ensures |URIEncode(Meant(t), encodeSlash)| <= |URIEncode(t, encodeSlash)|
    ensures |URIEncode(Meant(t), encodeSlash)| == |URIEncode(t, encodeSlash)| <==> '%' !in t
  {
    if t != [] {
      if t[0] == '%' {
        EncodedTwiceGrows(t[3..], encodeSlash);
        EncodeCons(EscapedOctet(t[1], t[2]), Meant(t[3..]), encodeSlash);
        EscapeGrows(t, encodeSlash);
      } else {
        var c: Octet := if t[0] == '+' then ' ' else t[0];
        EncodedTwiceGrows(t[1..], encodeSlash);
        EncodeCons(c, Meant(t[1..]), encodeSlash);
        EncodeCons(t[0], t[1..], encodeSlash);
        assert t == [t[0]] + t[1..];
        assert !Literal('+', encodeSlash) && !Literal(' ', encodeSlash);
      }
    }
  }

  /** Without escapes and "+" there is nothing to decode; without escapes no "+" is meant. */
  lemma {:induction false} NoEscapes(t: Octets)
    requires WellFormed(t) && '%' !in t
    ensures '+' !in t ==> Meant(t) == t
    ensures '+' !in Meant(t)
  {
    if t != [] {
      NoEscapes(t[1..]);
      assert t == [t[0]] + t[1..];
    }
  }

  /** Encoding without decoding first gives what was meant exactly when there is nothing to decode. */
  lemma EncodedTwiceIff(t: Octets, encodeSlash: bool)
    requires WellFormed(t)
    ensures URIEncode(t, encodeSlash) == URIEncode(Meant(t), encodeSlash) <==> '%' !in t && '+' !in t
  {
    EncodedTwiceGrows(t, encodeSlash);
    if '%' !in t {
      NoEscapes(t);
    }
    if URIEncode(t, encodeSlash) == URIEncode(Meant(t), encodeSlash) {
      EncodeInjective(t, Meant(t), encodeSlash);
    }
  }

  /** The byte occurs in one of the segments. */
  predicate Has(segs: seq<Octets>, c: Octet) {
    segs != [] && (c in segs[0] || Has(segs[1..], c))
  }

  lemma {:induction false} SplitHas(raw: Octets, c: Octet)
    requires c != '&'
    ensures Has(Split<Octet>(raw, '&'), c) <==> c in raw
  {
    if raw != [] {
      SplitHas(raw[1..], c);
      var rest := Split<Octet>(raw[1..], '&');
      var parts := Split<Octet>(raw, '&');
      assert raw == [raw[0]] + raw[1..];
      if raw[0] == '&' {
        assert parts[1..] == rest;
      } else {
        assert parts[1..] == rest[1..] && parts[0] == [raw[0]] + rest[0];
      }
    }
  }

  /** The bytes of all keys and values. */
  function Weight(ps: seq<Pair>): nat {
    if ps == [] then 0 else |ps[0].k| + |ps[0].v| + Weight(ps[1..])
  }

  lemma {:induction false} WeightAppend(a: seq<Pair>, b: seq<Pair>)
    ensures Weight(a + b) == Weight(a) + Weight(b)
  {
    if a == [] {
      assert a + b == b;
    } else {
      assert (a + b)[1..] == a[1..] + b;
      WeightAppend(a[1..], b);
    }
  }

  lemma WeightWithout(b: seq<Pair>, j: nat)
    requires j < |b|
    ensures Weight(b) == |b[j].k| + |b[j].v| + Weight(b[..j] + b[j + 1..])
  {
    WeightAppend(b[..j], b[j + 1..]);
    WeightAppend(b[..j], b[j..]);
    assert b == b[..j] + b[j..] && b[j..][1..] == b[j + 1..];
  }

  lemma {:induction false} WeightOfMultiset(a: seq<Pair>, b: seq<Pair>)
    requires multiset(a) == multiset(b)
    ensures Weight(a) == Weight(b) && |a| == |b|
  {
    assert |a| == |multiset(a)| == |multiset(b)| == |b|;
    if a != [] {
      assert a[0] in multiset(b);
      var j := IndexOf(b, a[0]);
      SameWithout(a, b, j);
      WeightOfMultiset(a[1..], b[..j] + b[j + 1..]);
      WeightWithout(b, j);
    }
  }

  lemma {:induction false} JoinWeight(ps: seq<Pair>)
    ensures |JoinPairs(ps)| == if ps == [] then 0 else Weight(ps) + 2 * |ps| - 1
  {
    if ps != [] {
      JoinWeight(ps[1..]);
      assert Texts(ps)[1..] == Texts(ps[1..]);
    }
  }

  lemma PartsHold(seg: Octets, c: Octet)
    requires c != '='
    ensures c in seg <==> c in SegmentPair(seg).k || c in SegmentPair(seg).v
  {
  }

  function PairWeight(p: Pair): nat {
    |p.k| + |p.v|
  }

  /** What a pair weighs when it is signed as it is, against what it weighs when it was decoded first. */
  lemma PairWeighs(p: Pair)
    requires WellFormed(p.k) && WellFormed(p.v)
    ensures PairWeight(EncodePair(MeantPair(p))) <= PairWeight(EncodePair(p))
    ensures PairWeight(EncodePair(MeantPair(p))) == PairWeight(EncodePair(p)) <==> '%' !in p.k && '%' !in p.v
    ensures '%' !in p.k && '%' !in p.v && '+' !in p.k && '+' !in p.v ==> MeantPair(p) == p
  {
    EncodedTwiceGrows(p.k, true);
    EncodedTwiceGrows(p.v, true);
    if '%' !in p.k && '%' !in p.v {
      NoEscapes(p.k);
      NoEscapes(p.v);
    }
  }

  lemma SegmentWeighs(seg: Octets)
    requires WellFormed(SegmentPair(seg).k) && WellFormed(SegmentPair(seg).v)
    ensures |SpecSegment(seg)| == |SegmentPairs(seg)| && Weight(SpecSegment(seg)) <= Weight(SegmentPairs(seg))
    ensures Weight(SpecSegment(seg)) == Weight(SegmentPairs(seg)) <==> '%' !in seg
    ensures '%' !in seg && '+' !in seg ==> SpecSegment(seg) == SegmentPairs(seg)
  {
    var p := SegmentPair(seg);
    PairWeighs(p);
    PartsHold(seg, '%');
    PartsHold(seg, '+');
    if seg != [] {
      WeightOfOne(EncodePair(p));
      WeightOfOne(EncodePair(MeantPair(p)));
    }
  }

  lemma WeightOfOne(p: Pair)
    ensures Weight([p]) == PairWeight(p)
  {
    assert [p][1..] == [];
  }

  lemma {:induction false} SpecPairsWeigh(segs: seq<Octets>)
    requires AllWellFormed(segs)
    ensures |SpecPairsOf(segs)| == |PairsOf(segs)| && Weight(SpecPairsOf(segs)) <= Weight(PairsOf(segs))
    ensures Weight(SpecPairsOf(segs)) == Weight(PairsOf(segs)) <==> !Has(segs, '%')
    ensures !Has(segs, '%') && !Has(segs, '+') ==> SpecPairsOf(segs) == PairsOf(segs)
  {
    if segs != [] {
      var rest := segs[1..];
      assert AllWellFormed(rest);
      SpecPairsWeigh(rest);
      SegmentWeighs(segs[0]);
      WeightAppend(SpecSegment(segs[0]), SpecPairsOf(rest));
      WeightAppend(SegmentPairs(segs[0]), PairsOf(rest));
    }
  }

  /** The pair encodes no "+". */
  predicate EncodesNoPlus(p: Pair) {
    var k, v := PercentDecode(p.k), PercentDecode(p.v);
    (k.Some? ==> '+' !in k.value) && (v.Some? ==> '+' !in v.value)
  }

  lemma EncodesNoPlusIff(p: Pair)
    ensures EncodesNoPlus(EncodePair(p)) <==> '+' !in p.k && '+' !in p.v
  {
    DecodeEncode(p.k, true);
    DecodeEncode(p.v, true);
  }

  /** Without escapes, a "+" is always signed as one, and never meant as one. */
  lemma {:induction false} PlusTells(segs: seq<Octets>)
    requires AllWellFormed(segs) && !Has(segs, '%')
    ensures forall x :: x in SpecPairsOf(segs) ==> EncodesNoPlus(x)
    ensures Has(segs, '+') ==> exists x :: x in PairsOf(segs) && !EncodesNoPlus(x)
  {
    if segs != [] {
      assert AllWellFormed(segs[1..]);
      PlusTells(segs[1..]);
      SegmentPlus(segs[0]);
      if '+' in segs[0] {
        assert SegmentPairs(segs[0])[0] in PairsOf(segs);
      } else if Has(segs[1..], '+') {
        var x :| x in PairsOf(segs[1..]) && !EncodesNoPlus(x);
        assert x in PairsOf(segs);
      }
    }
  }

  lemma SegmentPlus(seg: Octets)
    requires WellFormed(SegmentPair(seg).k) && WellFormed(SegmentPair(seg).v) && '%' !in seg
    ensures seg != [] ==> EncodesNoPlus(SpecSegment(seg)[0])
    ensures '+' in seg ==> seg != [] && !EncodesNoPlus(SegmentPairs(seg)[0])
  {
    var p := SegmentPair(seg);
    PartsHold(seg, '%');
    PartsHold(seg, '+');
    NoEscapes(p.k);
    NoEscapes(p.v);
    EncodesNoPlusIff(p);
    EncodesNoPlusIff(MeantPair(p));
  }

  lemma {:induction false} SpecPairsPlain(segs: seq<Octets>)
    ensures PlainPairs(SpecPairsOf(segs))
  {
    if segs != [] {
      SpecPairsPlain(segs[1..]);
      var p := MeantPair(SegmentPair(segs[0]));
      EncodeAlphabet(p.k, true);
      EncodeAlphabet(p.v, true);
    }
  }

  /** A result of the code that is correct has the pairs that are called for. */
  lemma CommonPairs(raw: Octets, q: Octets)
    requires IsCanonicalQuery(raw, q) && IsSpecQuery(raw, q)
    ensures multiset(EncodedPairs(raw)) == multiset(SpecPairs(raw))
  {
    QueryReadsBack(raw, q);
    var ps :| SortedByPair(ps) && multiset(ps) == multiset(SpecPairs(raw)) && q == JoinPairs(ps);
    SpecPairsPlain(Split<Octet>(raw, '&'));
    SortIsPlain(ps, SpecPairs(raw));
    SplitPairsJoinPairs(ps);
  }

  /** The pairs signed are the pairs meant, whatever their order, only if there is nothing to decode. */
  lemma SamePairsIff(raw: Octets)
    requires AllWellFormed(Split<Octet>(raw, '&'))
    ensures multiset(EncodedPairs(raw)) == multiset(SpecPairs(raw)) <==> '%' !in raw && '+' !in raw
    ensures '%' !in raw && '+' !in raw ==> EncodedPairs(raw) == SpecPairs(raw)
  {
    var segs := Split<Octet>(raw, '&');
    SplitHas(raw, '%');
    SplitHas(raw, '+');
    SpecPairsWeigh(segs);
    if multiset(EncodedPairs(raw)) == multiset(SpecPairs(raw)) {
      WeightOfMultiset(EncodedPairs(raw), SpecPairs(raw));
      PlusTells(segs);
      SameMembers(EncodedPairs(raw), SpecPairs(raw));
    }
  }

  lemma SameMembers(a: seq<Pair>, b: seq<Pair>)
    requires multiset(a) == multiset(b)
    ensures forall x :: x in a ==> x in b
  {
    forall x | x in a
      ensures x in b
    {
      assert x in multiset(a);
      assert x in multiset(b);
    }
  }

  /** Sorting by key alone sorts by pair as well when keys decide their values. */
  lemma KeySortedIsPairSorted(ps: seq<Pair>)
    requires SortedByKey(ps) && KeysDecide(ps)
    ensures SortedByPair(ps)
  {
    forall i, j | 0 <= i < j < |ps|
      ensures !PairLess(ps[j], ps[i])
    {
      assert ps[i] in multiset(ps) && ps[j] in multiset(ps);
      LessTotal(ps[i].v, ps[i].v);
    }
  }

  lemma {:induction false} PairSortedUnique(a: seq<Pair>, b: seq<Pair>)
    requires SortedByPair(a) && SortedByPair(b) && multiset(a) == multiset(b)
    ensures a == b
  {
    assert |a| == |multiset(a)| == |multiset(b)| == |b|;
    if a != [] {
      PairLeastFirst(a, b);
      SortedTail(a);
      SortedTail(b);
      RemoveAt(a, 0);
      RemoveAt(b, 0);
      PairSortedUnique(a[1..], b[1..]);
      SameHeadAndTail(a, b);
    }
  }

  lemma PairLeastFirst(a: seq<Pair>, b: seq<Pair>)
    requires a != [] && b != [] && SortedByPair(a) && SortedByPair(b) && multiset(a) == multiset(b)
    ensures a[0] == b[0]
  {
    assert a[0] in multiset(b) && b[0] in multiset(a);
    var j, i := IndexOf(b, a[0]), IndexOf(a, b[0]);
    PairTotal(a[0], b[0]);
  }

  /** There is exactly one correct canonical query. */
  lemma SpecQueryUnique(raw: Octets) returns (q: Octets)
    ensures IsSpecQuery(raw, q)
    ensures forall q' :: IsSpecQuery(raw, q') ==> q' == q
  {
    var ps := InsertionSort(SpecPairs(raw));
    InsertionSortSorts(SpecPairs(raw));
    q := JoinPairs(ps);
    forall q' | IsSpecQuery(raw, q')
      ensures q' == q
    {
      var qs :| SortedByPair(qs) && multiset(qs) == multiset(SpecPairs(raw)) && q' == JoinPairs(qs);
      PairSortedUnique(ps, qs);
    }
  }

  /** Some result of the code is correct for a well-formed query exactly when it has nothing to decode. */
  lemma QueryCanMeetSpecIff(raw: Octets)
    requires AllWellFormed(Split<Octet>(raw, '&'))
    ensures (exists q :: IsCanonicalQuery(raw, q) && IsSpecQuery(raw, q)) <==> '%' !in raw && '+' !in raw
  {
    SamePairsIff(raw);
    if '%' !in raw && '+' !in raw {
      var ps := InsertionSort(SpecPairs(raw));
      InsertionSortSorts(SpecPairs(raw));
      SortIsCanonical(raw, ps);
      assert IsSpecQuery(raw, JoinPairs(ps));
    } else {
      forall q | IsCanonicalQuery(raw, q)
        ensures !IsSpecQuery(raw, q)
      {
        if IsSpecQuery(raw, q) {
          CommonPairs(raw, q);
        }
      }
    }
  }

  /** The code is sure to sign what signature version 4 asks for, for a well-formed query, if and only if
      the query has no escape, no "+", and no name with two different values. */
  lemma QueryMeetsSpecIff(raw: Octets)
    requires AllWellFormed(Split<Octet>(raw, '&'))
    ensures (forall q :: IsCanonicalQuery(raw, q) ==> IsSpecQuery(raw, q))
              <==> '%' !in raw && '+' !in raw && KeysDecide(EncodedPairs(raw))
  {
    QueryCanMeetSpecIff(raw);
    SamePairsIff(raw);
    if '%' !in raw && '+' !in raw && KeysDecide(EncodedPairs(raw)) {
      forall q | IsCanonicalQuery(raw, q)
        ensures IsSpecQuery(raw, q)
      {
        DecidedIsSpec(raw, q);
      }
    } else if '%' !in raw && '+' !in raw {
      var q1, q2 := TwoResults(raw);
      var q := SpecQueryUnique(raw);
      assert IsCanonicalQuery(raw, q1) && IsCanonicalQuery(raw, q2);
    } else {
      var ps := InsertionSort(EncodedPairs(raw));
      InsertionSortSorts(EncodedPairs(raw));
      SortIsCanonical(raw, ps);
    }
  }

  lemma DecidedIsSpec(raw: Octets, q: Octets)
    requires IsCanonicalQuery(raw, q) && KeysDecide(EncodedPairs(raw)) && EncodedPairs(raw) == SpecPairs(raw)
    ensures IsSpecQuery(raw, q)
  {
    var ps :| SortOf(ps, EncodedPairs(raw)) && q == JoinPairs(ps);
    assert KeysDecide(ps);
    KeySortedIsPairSorted(ps);
  }

  // ---------------------------------------------------------------- real queries that are signed wrong

  /** A parameter with a plain key. */
  lemma ValueSegment(key: Octets, value: Octets)
    requires AllLiteral(key, true)
    ensures var seg := key + ['='] + value;
            && seg != [] && SegmentPair(seg) == Pair(key, value)
            && SegmentPairs(seg) == [Pair(key, URIEncode(value, true))]
            && SpecSegment(seg) == [Pair(key, URIEncode(Meant(value), true))]
  {
    assert !Literal('=', true);
    CutAt<Octet>(key, value, '=');
    EncodeIdentityIff(key, true);
    LiteralIsMeant(key);
  }

  /** An escaped "*" and what follows it; and the same with its "%" escaped again. */
  function Star(rest: Octets): Octets {
    ['%', '2', 'A'] + rest
  }

  function TwiceStar(rest: Octets): Octets {
    ['%', '2', '5'] + (['2', 'A'] + rest)
  }

  lemma {:induction false} StarOnce(rest: Octets)
    requires AllLiteral(rest, true)
    ensures WellFormed(Star(rest)) && URIEncode(Meant(Star(rest)), true) == Star(rest)
  {
    EncodeIdentityIff(rest, true);
    EncodeCons('*', rest, true);
    assert EncodeOctet('*', true) == ['%', '2', 'A'];
    StarDecodes(rest);
  }

  lemma {:induction false} StarDecodes(rest: Octets)
    requires AllLiteral(rest, true)
    ensures QueryDecode(Star(rest)) == Some(['*'] + rest)
  {
    LiteralIsMeant(rest);
    var t := Star(rest);
    assert t[0] == '%' && t[1] == '2' && t[2] == 'A' && t[3..] == rest;
    assert EscapedOctet('2', 'A') == '*';
  }

  lemma {:induction false} StarTwice(rest: Octets)
    requires AllLiteral(rest, true)
    ensures URIEncode(Star(rest), true) == TwiceStar(rest)
  {
    var t := ['2', 'A'] + rest;
    EncodeIdentityIff(t, true);
    EncodeCons('%', t, true);
    StarShape(rest);
    assert EncodeOctet('%', true) == ['%', '2', '5'];
  }

  lemma StarShape(rest: Octets)
    ensures Star(rest) == ['%'] + (['2', 'A'] + rest)
  {
  }

  lemma {:induction false} LiteralIsMeant(t: Octets)
    requires AllLiteral(t, true)
    ensures WellFormed(t) && Meant(t) == t
  {
    if t != [] {
      assert Literal(t[0], true) && !Literal('%', true) && !Literal('+', true);
      LiteralIsMeant(t[1..]);
      assert t == [t[0]] + t[1..];
    }
  }

  lemma {:induction false} PlainSegment(key: Octets, value: Octets)
    requires AllLiteral(key, true) && AllLiteral(value, true)
    ensures PlainSeg(Param(key, value))
  {
    assert !Literal('&', true);
    ValueSegment(key, value);
    LiteralIsMeant(key);
    LiteralIsMeant(value);
  }

  function Param(key: Octets, value: Octets): Octets {
    key + ['='] + value
  }

  /** A parameter with something to decode in its value: how the code signs it, and how it is to be
      signed. */
  lemma {:induction false} MistakenValue(key: Octets, value: Octets, signed: Octets, meant: Octets)
    requires AllLiteral(key, true) && '&' !in value && WellFormed(value) && ('%' in value || '+' in value)
    requires URIEncode(value, true) == signed && URIEncode(Meant(value), true) == meant
    ensures Mistaken(Param(key, value), Pair(key, signed), Pair(key, meant))
  {
    assert !Literal('&', true);
    ValueSegment(key, value);
    LiteralIsMeant(key);
  }

  lemma {:induction false} StarSegment(key: Octets, rest: Octets)
    requires AllLiteral(key, true) && AllLiteral(rest, true)
    ensures Mistaken(Param(key, Star(rest)), Pair(key, TwiceStar(rest)), Pair(key, Star(rest)))
  {
    assert !Literal('&', true) && Star(rest)[0] == '%';
    StarOnce(rest);
    StarTwice(rest);
    MistakenValue(key, Star(rest), TwiceStar(rest), Star(rest));
  }

  /** Plain bytes around one byte: a "+" as url.Values.Encode writes a space, and its two encodings. */
  function Around(a: Octets, middle: Octets, b: Octets): Octets {
    a + (middle + b)
  }

  lemma {:induction false} EncodeAround(a: Octets, c: Octet, b: Octets)
    requires AllLiteral(a, true) && AllLiteral(b, true)
    ensures URIEncode(Around(a, [c], b), true) == Around(a, EncodeOctet(c, true), b)
  {
    EncodeIdentityIff(a, true);
    EncodeIdentityIff(b, true);
    EncodeAppend(a, [c] + b, true);
    EncodeCons(c, b, true);
  }

  lemma {:induction false} DecodeAround(a: Octets, b: Octets)
    requires AllLiteral(a, true) && AllLiteral(b, true)
    ensures WellFormed(Around(a, ['+'], b)) && Meant(Around(a, ['+'], b)) == Around(a, [' '], b)
  {
    var t := Around(a, ['+'], b);
    if a == [] {
      LiteralIsMeant(b);
      assert t[1..] == b;
    } else {
      DecodeAround(a[1..], b);
      assert Literal(a[0], true) && !Literal('%', true) && !Literal('+', true);
      assert t[0] == a[0] && t[1..] == Around(a[1..], ['+'], b);
      assert Around(a, [' '], b) == [a[0]] + Around(a[1..], [' '], b);
    }
  }

  lemma {:induction false} SpaceSegment(key: Octets, a: Octets, b: Octets)
    requires AllLiteral(key, true) && AllLiteral(a, true) && AllLiteral(b, true)
    ensures Mistaken(Param(key, Around(a, ['+'], b)),
                     Pair(key, Around(a, ['%', '2', 'B'], b)), Pair(key, Around(a, ['%', '2', '0'], b)))
  {
    PlusInside(a, b);
    DecodeAround(a, b);
    EncodeAround(a, '+', b);
    EncodeAround(a, ' ', b);
    assert EncodeOctet('+', true) == ['%', '2', 'B'] && EncodeOctet(' ', true) == ['%', '2', '0'];
    MistakenValue(key, Around(a, ['+'], b), Around(a, ['%', '2', 'B'], b), Around(a, ['%', '2', '0'], b));
  }

  lemma PlusInside(a: Octets, b: Octets)
    requires AllLiteral(a, true) && AllLiteral(b, true)
    ensures '+' in Around(a, ['+'], b) && '&' !in Around(a, ['+'], b)
  {
    assert !Literal('&', true) && Around(a, ['+'], b)[|a|] == '+';
  }

  predicate PlainSeg(seg: Octets) {
    '&' !in seg && WellFormed(SegmentPair(seg).k) && WellFormed(SegmentPair(seg).v)
  }

  /** A well-formed segment with something to decode, the pair the code signs for it, and the one
      called for. */
  predicate Mistaken(seg: Octets, signed: Pair, meant: Pair) {
    && PlainSeg(seg) && ('%' in seg || '+' in seg)
    && SegmentPairs(seg) == [signed] && SpecSegment(seg) == [meant]
  }

  lemma ThreeWellFormed(a: Octets, b: Octets, c: Octets)
    requires PlainSeg(a) && PlainSeg(b) && PlainSeg(c)
    ensures AllWellFormed([a, b, c])
  {
    forall i | 0 <= i < 3
      ensures WellFormed(SegmentPair([a, b, c][i]).k) && WellFormed(SegmentPair([a, b, c][i]).v)
    {
      assert [a, b, c][i] == if i == 0 then a else if i == 1 then b else c;
    }
  }

  lemma {:induction false} NoCorrectQuery(raw: Octets, a: Octets, b: Octets, c: Octets)
    requires PlainSeg(a) && PlainSeg(b) && PlainSeg(c) && ('%' in b || '+' in b) && raw == a + ['&'] + (b + ['&'] + c)
    ensures Split<Octet>(raw, '&') == [a, b, c]
    ensures !exists q :: IsCanonicalQuery(raw, q) && IsSpecQuery(raw, q)
  {
    SplitThree<Octet>(a, b, c, '&');
    ThreeWellFormed(a, b, c);
    Within(a, b, c, if '%' in b then '%' else '+');
    QueryCanMeetSpecIff(raw);
  }

  lemma {:induction false} WrongQuery(raw: Octets, a: Octets, b: Octets, c: Octets, signed: Pair, meant: Pair)
    requires PlainSeg(a) && Mistaken(b, signed, meant) && PlainSeg(c) && raw == a + ['&'] + (b + ['&'] + c)
    ensures signed in EncodedPairs(raw) && meant in SpecPairs(raw)
    ensures !exists q :: IsCanonicalQuery(raw, q) && IsSpecQuery(raw, q)
  {
    NoCorrectQuery(raw, a, b, c);
    MiddlePair(a, b, c);
  }

  /** Three parameters: the form of the query that GetCurrentIP sends. */
  function ThreeParams(k1: Octets, v1: Octets, key: Octets, value: Octets, k3: Octets, v3: Octets): Octets {
    Param(k1, v1) + ['&'] + (Param(key, value) + ['&'] + Param(k3, v3))
  }

  /** A wildcard host name. At every such input the code signs another name than the one meant, and so
      no correct query. For "*.example.com" the query is maxitems=1&name=%2A.example.com.&type=A, and
      "%252A.example.com." is signed where "%2A.example.com." is called for. */
  lemma {:induction false} WildcardIsSignedWrong(k1: Octets, v1: Octets, key: Octets, rest: Octets, k3: Octets, v3: Octets)
    requires AllLiteral(k1, true) && AllLiteral(v1, true) && AllLiteral(key, true) && AllLiteral(rest, true)
    requires AllLiteral(k3, true) && AllLiteral(v3, true)
    ensures var raw := ThreeParams(k1, v1, key, Star(rest), k3, v3);
            && Pair(key, TwiceStar(rest)) in EncodedPairs(raw) && Pair(key, Star(rest)) in SpecPairs(raw)
            && !exists q :: IsCanonicalQuery(raw, q) && IsSpecQuery(raw, q)
  {
    PlainSegment(k1, v1);
    StarSegment(key, rest);
    PlainSegment(k3, v3);
    WrongQuery(ThreeParams(k1, v1, key, Star(rest), k3, v3), Param(k1, v1), Param(key, Star(rest)), Param(k3, v3),
               Pair(key, TwiceStar(rest)), Pair(key, Star(rest)));
  }

  /** A host name with a space. For "a b.example.com" the query is maxitems=1&name=a+b.example.com.&type=A,
      and "a%2Bb.example.com." is signed where "a%20b.example.com." is called for. */
  lemma {:induction false} SpaceIsSignedWrong(k1: Octets, v1: Octets, key: Octets, a: Octets, b: Octets,
                                              k3: Octets, v3: Octets)
    requires AllLiteral(k1, true) && AllLiteral(v1, true) && AllLiteral(key, true)
    requires AllLiteral(a, true) && AllLiteral(b, true) && AllLiteral(k3, true) && AllLiteral(v3, true)
    ensures var raw := ThreeParams(k1, v1, key, Around(a, ['+'], b), k3, v3);
            && Pair(key, Around(a, ['%', '2', 'B'], b)) in EncodedPairs(raw)
            && Pair(key, Around(a, ['%', '2', '0'], b)) in SpecPairs(raw)
            && !exists q :: IsCanonicalQuery(raw, q) && IsSpecQuery(raw, q)
  {
    PlainSegment(k1, v1);
    SpaceSegment(key, a, b);
    PlainSegment(k3, v3);
    WrongQuery(ThreeParams(k1, v1, key, Around(a, ['+'], b), k3, v3),
               Param(k1, v1), Param(key, Around(a, ['+'], b)), Param(k3, v3),
               Pair(key, Around(a, ['%', '2', 'B'], b)), Pair(key, Around(a, ['%', '2', '0'], b)));
  }

  /** Two parameters of one name. */
  function Twice(key: Octets, first: Octets, second: Octets): Octets {
    Param(key, first) + ['&'] + Param(key, second)
  }

  function PairTwice(key: Octets, first: Octets, second: Octets): seq<Pair> {
    [Pair(key, first), Pair(key, second)]
  }

  lemma {:induction false} LiteralPair(key: Octets, value: Octets)
    requires AllLiteral(key, true) && AllLiteral(value, true)
    ensures '&' !in Param(key, value)
    ensures SegmentPairs(Param(key, value)) == [Pair(key, value)] == SpecSegment(Param(key, value))
  {
    PlainSegment(key, value);
    ValueSegment(key, value);
    LiteralIsMeant(value);
    EncodeIdentityIff(value, true);
  }

  lemma {:induction false} TwoPairs(key: Octets, first: Octets, second: Octets)
    requires AllLiteral(key, true) && AllLiteral(first, true) && AllLiteral(second, true)
    ensures EncodedPairs(Twice(key, first, second)) == PairTwice(key, first, second) == SpecPairs(Twice(key, first, second))
  {
    var a, b := Param(key, first), Param(key, second);
    LiteralPair(key, first);
    LiteralPair(key, second);
    SplitTwo<Octet>(a, b, '&');
    TwoSegments(a, b);
  }

  lemma TwoSegments(a: Octets, b: Octets)
    ensures PairsOf([a, b]) == SegmentPairs(a) + SegmentPairs(b) && SpecPairsOf([a, b]) == SpecSegment(a) + SpecSegment(b)
  {
    assert [a, b][1..] == [b] && [b][1..] == [];
    assert PairsOf([]) == [] && SpecPairsOf([]) == [];
    assert PairsOf([b]) == SegmentPairs(b) && SpecPairsOf([b]) == SpecSegment(b);
  }

  lemma JoinTwice(key: Octets, first: Octets, second: Octets)
    ensures JoinPairs(PairTwice(key, first, second)) == Twice(key, first, second)
  {
    var a, b := Param(key, first), Param(key, second);
    var texts := Texts(PairTwice(key, first, second));
    assert texts == [a, b];
    assert texts[1..] == [b];
    assert Join<Octet>([b], '&') == b;
  }

  /** A repeated name, its values not in order: the query itself is a possible result, and a wrong one.
      For "a=2&a=1" it is to be "a=1&a=2". */
  lemma {:induction false} RepeatedNameMayBeWrong(key: Octets, large: Octets, small: Octets)
    requires AllLiteral(key, true) && AllLiteral(large, true) && AllLiteral(small, true) && Less(small, large)
    ensures IsCanonicalQuery(Twice(key, large, small), Twice(key, large, small))
    ensures forall q :: IsSpecQuery(Twice(key, large, small), q) <==> q == Twice(key, small, large)
    ensures Twice(key, small, large) != Twice(key, large, small)
  {
    var raw := Twice(key, large, small);
    var ps, qs := PairTwice(key, large, small), PairTwice(key, small, large);
    TwoPairs(key, large, small);
    JoinTwice(key, large, small);
    JoinTwice(key, small, large);
    TwoSorts(key, large, small);
    SortIsCanonical(raw, ps);
    var q := SpecQueryUnique(raw);
    assert IsSpecQuery(raw, JoinPairs(qs));
    RenderingsDiffer(raw, ps, qs);
  }

  lemma TwoSorts(key: Octets, large: Octets, small: Octets)
    requires Less(small, large)
    ensures var ps, qs := PairTwice(key, large, small), PairTwice(key, small, large);
            SortOf(ps, ps) && SortOf(qs, ps) && SortedByPair(qs) && ps != qs
  {
    var ps, qs := PairTwice(key, large, small), PairTwice(key, small, large);
    LessTotal(key, key);
    LessTotal(small, large);
    assert qs[0] != ps[0];
  }

  lemma Within(a: Octets, b: Octets, c: Octets, x: Octet)
    requires x in b
    ensures x in a + ['&'] + (b + ['&'] + c)
  {
  }

  lemma MiddlePair(a: Octets, b: Octets, c: Octets)
    requires |SegmentPairs(b)| == 1 && |SpecSegment(b)| == 1
    ensures SegmentPairs(b)[0] in PairsOf([a, b, c]) && SpecSegment(b)[0] in SpecPairsOf([a, b, c])
  {
    assert [a, b, c][1..] == [b, c] && [b, c][1..] == [c];
    assert PairsOf([b, c]) == SegmentPairs(b) + PairsOf([c]) && SpecPairsOf([b, c]) == SpecSegment(b) + SpecPairsOf([c]);
    assert PairsOf([b, c])[0] == SegmentPairs(b)[0] && SpecPairsOf([b, c])[0] == SpecSegment(b)[0];
    assert PairsOf([a, b, c]) == SegmentPairs(a) + PairsOf([b, c]);
    assert SpecPairsOf([a, b, c]) == SpecSegment(a) + SpecPairsOf([b, c]);
  }

  const K1: Octets := "maxitems"
  const V1: Octets := "1"
  const NAME: Octets := "name"
  const TAIL: Octets := ".example.com."
  const BTAIL: Octets := "b.example.com."
  const K3: Octets := "type"
  const V3: Octets := "A"

  lemma ExamplesAreLiteral()
    ensures AllLiteral(K1, true) && AllLiteral(V1, true) && AllLiteral(NAME, true)
    ensures AllLiteral(TAIL, true) && AllLiteral(BTAIL, true) && AllLiteral(K3, true) && AllLiteral(V3, true)
  {
  }

  lemma ExampleText()
    ensures Param(K1, V1) == "maxitems=1" && Param(K3, V3) == "type=A"
    ensures Param(NAME, Star(TAIL)) == "name=%2A.example.com."
    ensures Param(NAME, Around(['a'], ['+'], BTAIL)) == "name=a+b.example.com."
  {
  }

  /** The real input for the host name "*.example.com": no result for it is correct. */
  lemma WildcardExample(q: Octets)
    ensures ThreeParams(K1, V1, NAME, Star(TAIL), K3, V3) ==
              "maxitems=1" + ['&'] + ("name=%2A.example.com." + ['&'] + "type=A")
    ensures IsCanonicalQuery(ThreeParams(K1, V1, NAME, Star(TAIL), K3, V3), q) ==>
              !IsSpecQuery(ThreeParams(K1, V1, NAME, Star(TAIL), K3, V3), q)
  {
    ExampleText();
    ExamplesAreLiteral();
    WildcardIsSignedWrong(K1, V1, NAME, TAIL, K3, V3);
  }

  /** And the one for the host name "a b.example.com". */
  lemma SpaceExample(q: Octets)
    ensures ThreeParams(K1, V1, NAME, Around(['a'], ['+'], BTAIL), K3, V3) ==
              "maxitems=1" + ['&'] + ("name=a+b.example.com." + ['&'] + "type=A")
    ensures IsCanonicalQuery(ThreeParams(K1, V1, NAME, Around(['a'], ['+'], BTAIL), K3, V3), q) ==>
              !IsSpecQuery(ThreeParams(K1, V1, NAME, Around(['a'], ['+'], BTAIL), K3, V3), q)
  {
    ExampleText();
    ExamplesAreLiteral();
    SpaceIsSignedWrong(K1, V1, NAME, ['a'], BTAIL, K3, V3);
  }

  const AKEY: Octets := "a"
  const ONE: Octets := "1"
  const TWO: Octets := "2"

  lemma RepeatedText()
    ensures Twice(AKEY, TWO, ONE) == "a=2&a=1" && Twice(AKEY, ONE, TWO) == "a=1&a=2"
  {
  }

  lemma RepeatedIsLiteral()
    ensures AllLiteral(AKEY, true) && AllLiteral(ONE, true) && AllLiteral(TWO, true) && Less(ONE, TWO)
  {
  }

  /** "a=2&a=1", which is to become "a=1&a=2", may be left as it is. */
  lemma RepeatedNameExample()
    ensures Twice(AKEY, TWO, ONE) == "a=2&a=1" && Twice(AKEY, ONE, TWO) == "a=1&a=2"
    ensures IsCanonicalQuery(Twice(AKEY, TWO, ONE), Twice(AKEY, TWO, ONE))
    ensures !IsSpecQuery(Twice(AKEY, TWO, ONE), Twice(AKEY, TWO, ONE))
  {
    RepeatedText();
    RepeatedIsLiteral();
    RepeatedNameMayBeWrong(AKEY, TWO, ONE);
  }

  // ---------------------------------------------------------------- the canonical request

  method CanonicalURIPath(path: Octets) returns (uri: Octets)
    ensures uri == URIPath(path)
  {
    if path == [] {
      return ['/'];
    }
    uri := AwsURIEncode(path, false);
  }

  function URIPath(path: Octets): Octets {
    if path == [] then ['/'] else URIEncode(path, false)
  }

  /** What the signature covers; an empty token stands for long-lived credentials. */
  datatype Signed = Signed(verb: Octets, path: Octets, query: Octets, host: Octets,
                           timestamp: Octets, token: Octets, payloadHash: Octets)

  function SignedHeaders(token: Octets): Octets {
    "host;x-amz-date" + if token != [] then ";x-amz-security-token" else ""
  }

  function CanonicalHeaders(s: Signed): Octets {
    "host:" + s.host + "\n" + "x-amz-date:" + s.timestamp + "\n" +
    if s.token != [] then "x-amz-security-token:" + s.token + "\n" else ""
  }

  function CanonicalRequest(s: Signed): Octets {
    Join<Octet>([s.verb, URIPath(s.path), s.query, CanonicalHeaders(s), SignedHeaders(s.token), s.payloadHash], '\n')
  }

  predicate OneLine(t: Octets) {
    '\n' !in t
  }

  predicate OneLineFields(s: Signed) {
    OneLine(s.verb) && OneLine(s.host) && OneLine(s.timestamp) && OneLine(s.token) && OneLine(s.payloadHash)
  }

  function HeaderLines(s: Signed): seq<Octets> {
    ["host:" + s.host, "x-amz-date:" + s.timestamp] +
    if s.token != [] then ["x-amz-security-token:" + s.token] else []
  }

  /** The canonical request, line by line. */
  function Lines(s: Signed): seq<Octets> {
    [s.verb, URIPath(s.path), s.query] + HeaderLines(s) + [[], SignedHeaders(s.token), s.payloadHash]
  }

  lemma {:induction false} JoinCons(first: Octets, rest: seq<Octets>)
    requires rest != []
    ensures Join<Octet>([first] + rest, '\n') == first + ['\n'] + Join<Octet>(rest, '\n')
  {
    assert ([first] + rest)[1..] == rest;
  }

  lemma {:induction false} JoinAppend(a: seq<Octets>, b: seq<Octets>)
    requires a != [] && b != []
    ensures Join<Octet>(a + b, '\n') == Join<Octet>(a, '\n') + ['\n'] + Join<Octet>(b, '\n')
  {
    assert a + b == [a[0]] + (a[1..] + b);
    JoinCons(a[0], a[1..] + b);
    if |a| == 1 {
      assert a[1..] + b == b;
    } else {
      JoinAppend(a[1..], b);
    }
  }

  lemma HeadersAreLines(s: Signed)
    ensures CanonicalHeaders(s) == Join<Octet>(HeaderLines(s) + [[]], '\n')
  {
    var h: Octets, d: Octets, k: Octets := "host:" + s.host, "x-amz-date:" + s.timestamp, "x-amz-security-token:" + s.token;
    if s.token != [] {
      JoinCons(k, [[]]);
      JoinCons(d, [k] + [[]]);
      JoinCons(h, [d] + ([k] + [[]]));
      assert [h, d] + [k] + [[]] == [h] + ([d] + ([k] + [[]]));
    } else {
      JoinCons(d, [[]]);
      JoinCons(h, [d] + [[]]);
      assert [h, d] + [] + [[]] == [h] + ([d] + [[]]);
    }
  }

  lemma RequestIsLines(s: Signed)
    ensures CanonicalRequest(s) == Join<Octet>(Lines(s), '\n')
  {
    var front: seq<Octets> := [s.verb, URIPath(s.path), s.query];
    var heads: seq<Octets> := HeaderLines(s) + [[]];
    var back := [SignedHeaders(s.token), s.payloadHash];
    HeadersAreLines(s);
    JoinAppend(front, [CanonicalHeaders(s)] + back);
    JoinAppend([CanonicalHeaders(s)], back);
    JoinAppend(front, heads + back);
    JoinAppend(heads, back);
    assert front + ([CanonicalHeaders(s)] + back)
        == [s.verb, URIPath(s.path), s.query, CanonicalHeaders(s), SignedHeaders(s.token), s.payloadHash];
    assert Lines(s) == front + (heads + back);
  }

  lemma {:induction false} EncodedIsOneLine(t: Octets)
    requires forall c :: c in t ==> Literal(c, false) || c == '%' || c == '&' || c == '='
    ensures OneLine(t)
  {
    assert !Literal('\n', false);
  }

  lemma QueryIsOneLine(raw: Octets, q: Octets)
    requires IsCanonicalQuery(raw, q)
    ensures OneLine(q)
  {
    QueryReadsBack(raw, q);
    PairsArePlain(Split<Octet>(raw, '&'));
    SortIsPlain(SplitPairs(q), EncodedPairs(raw));
    JoinedBytes(SplitPairs(q));
  }

  lemma {:induction false} JoinedBytes(ps: seq<Pair>)
    requires PlainPairs(ps)
    ensures OneLine(JoinPairs(ps))
  {
    assert !Plain('\n');
    if |ps| > 1 {
      JoinedBytes(ps[1..]);
      assert Texts(ps)[1..] == Texts(ps[1..]);
    }
  }

  lemma LinesAreFree(s: Signed)
    requires OneLineFields(s) && OneLine(s.query)
    ensures Free(Lines(s), '\n')
  {
    EncodeAlphabet(s.path, false);
    EncodedIsOneLine(URIPath(s.path));
    HeaderLinesAreFree(s);
    HeaderListIsOneLine(s.token);
    var front: seq<Octets> := [s.verb, URIPath(s.path), s.query];
    FreeAppend<Octet>(front, HeaderLines(s), '\n');
    FreeAppend<Octet>(front + HeaderLines(s), [[], SignedHeaders(s.token), s.payloadHash], '\n');
  }

  lemma HeaderLinesAreFree(s: Signed)
    requires OneLineFields(s)
    ensures Free(HeaderLines(s), '\n')
  {
    OneLineAppend("host:", s.host);
    OneLineAppend("x-amz-date:", s.timestamp);
    OneLineAppend("x-amz-security-token:", s.token);
  }

  lemma HeaderListIsOneLine(token: Octets)
    ensures OneLine(SignedHeaders(token))
  {
  }

  lemma OneLineAppend(a: Octets, b: Octets)
    requires OneLine(a) && OneLine(b)
    ensures OneLine(a + b)
  {
  }

  /** The canonical request is uniquely decodable: for one-line fields and query strings that the
      canonicalisation produced, two requests have the same canonical form exactly when all fields
      agree, with the empty path meaning "/" and the token's presence included. */
  lemma RequestDecodes(s: Signed, rawS: Octets, r: Signed, rawR: Octets)
    requires OneLineFields(s) && OneLineFields(r)
    requires IsCanonicalQuery(rawS, s.query) && IsCanonicalQuery(rawR, r.query)
    ensures CanonicalRequest(s) == CanonicalRequest(r) <==>
              && s.verb == r.verb && s.host == r.host && s.timestamp == r.timestamp
              && s.token == r.token && s.payloadHash == r.payloadHash
              && (if s.path == [] then "/" else s.path) == (if r.path == [] then "/" else r.path)
              && SplitPairs(s.query) == SplitPairs(r.query)
  {
    QueryReadsBack(rawS, s.query);
    QueryReadsBack(rawR, r.query);
    PathDecodes(s.path, r.path);
    if CanonicalRequest(s) == CanonicalRequest(r) {
      QueryIsOneLine(rawS, s.query);
      QueryIsOneLine(rawR, r.query);
      SameLines(s, r);
      LinesDecode(s, r);
    }
  }

  lemma SameLines(s: Signed, r: Signed)
    requires OneLineFields(s) && OneLineFields(r) && OneLine(s.query) && OneLine(r.query)
    requires CanonicalRequest(s) == CanonicalRequest(r)
    ensures Lines(s) == Lines(r)
  {
    RequestIsLines(s);
    RequestIsLines(r);
    LinesAreFree(s);
    LinesAreFree(r);
    SplitJoin<Octet>(Lines(s), '\n');
    SplitJoin<Octet>(Lines(r), '\n');
  }

  lemma LinesDecode(s: Signed, r: Signed)
    requires Lines(s) == Lines(r)
    ensures s.verb == r.verb && URIPath(s.path) == URIPath(r.path) && s.query == r.query
    ensures s.host == r.host && s.timestamp == r.timestamp && s.token == r.token && s.payloadHash == r.payloadHash
  {
    var a, b := Lines(s), Lines(r);
    assert |a| == if s.token == [] then 8 else 9;
    assert |b| == if r.token == [] then 8 else 9;
    assert a[0] == b[0] && a[1] == b[1] && a[2] == b[2] && a[3] == b[3] && a[4] == b[4] && a[|a| - 1] == b[|b| - 1];
    assert a[3][|"host:"|..] == s.host && b[3][|"host:"|..] == r.host;
    assert a[4][|"x-amz-date:"|..] == s.timestamp && b[4][|"x-amz-date:"|..] == r.timestamp;
    if s.token != [] {
      assert a[5] == b[5];
      assert a[5][|"x-amz-security-token:"|..] == s.token && b[5][|"x-amz-security-token:"|..] == r.token;
    }
  }

  lemma PathDecodes(p: Octets, q: Octets)
    ensures URIPath(p) == URIPath(q) <==> (if p == [] then "/" else p) == (if q == [] then "/" else q)
  {
    var p', q': Octets := if p == [] then "/" else p, if q == [] then "/" else q;
    assert URIEncode("/", false) == "/" by {
      EncodeIdentityIff("/", false);
    }
    if URIPath(p) == URIPath(q) {
      EncodeInjective(p', q', false);
    }
  }

  /** Split on newlines, the canonical request gives the lines that signature version 4 asks for, in
      that order, the block of headers closed by an empty line. */
  lemma RequestReads(s: Signed)
    requires OneLineFields(s) && OneLine(s.query)
    ensures Split<Octet>(CanonicalRequest(s), '\n') ==
              [s.verb, URIPath(s.path), s.query, "host:" + s.host, "x-amz-date:" + s.timestamp]
              + (if s.token != [] then ["x-amz-security-token:" + s.token] else [])
              + [[], SignedHeaders(s.token), s.payloadHash]
  {
    RequestIsLines(s);
    LinesAreFree(s);
    SplitJoin<Octet>(Lines(s), '\n');
  }

  // ---------------------------------------------------------------- signing

  const ALGORITHM: Octets := "AWS4-HMAC-SHA256"
  const TERMINATOR: Octets := "aws4_request"

  datatype Hashes = Hashes(sha256: Octets -> Octets, hmac: (Octets, Octets) -> Octets, hex: Octets -> Octets)

  datatype Credentials = Credentials(accessKey: Octets, secretKey: Octets, token: Octets, region: Octets, service: Octets)

  function Scope(c: Credentials, datestamp: Octets): Octets {
    datestamp + "/" + c.region + "/" + c.service + "/" + TERMINATOR
  }

  function SigningKey(h: Hashes, c: Credentials, datestamp: Octets): Octets {
    h.hmac(h.hmac(h.hmac(h.hmac("AWS4" + c.secretKey, datestamp), c.region), c.service), TERMINATOR)
  }

  function StringToSign(h: Hashes, c: Credentials, datestamp: Octets, s: Signed): Octets {
    Join<Octet>([ALGORITHM, s.timestamp, Scope(c, datestamp), h.hex(h.sha256(CanonicalRequest(s)))], '\n')
  }

  function Signature(h: Hashes, c: Credentials, datestamp: Octets, s: Signed): Octets {
    h.hex(h.hmac(SigningKey(h, c, datestamp), StringToSign(h, c, datestamp, s)))
  }

  function Authorization(h: Hashes, c: Credentials, datestamp: Octets, s: Signed): Octets {
    ALGORITHM + " Credential=" + (c.accessKey + "/" + Scope(c, datestamp)) +
    ", SignedHeaders=" + SignedHeaders(s.token) + ", Signature=" + Signature(h, c, datestamp, s)
  }

  // ---------------------------------------------------------------- what a receiver makes of it

  lemma ScopeIsJoin(c: Credentials, datestamp: Octets)
    ensures Scope(c, datestamp) == Join<Octet>([datestamp, c.region, c.service, TERMINATOR], '/')
  {
    JoinThree(c.region, c.service, TERMINATOR);
    assert [datestamp, c.region, c.service, TERMINATOR][1..] == [c.region, c.service, TERMINATOR];
  }

  lemma JoinThree(a: Octets, b: Octets, c: Octets)
    ensures Join<Octet>([a, b, c], '/') == a + "/" + b + "/" + c
  {
    assert [a, b, c][1..] == [b, c] && [b, c][1..] == [c];
    assert Join<Octet>([c], '/') == c;
    assert Join<Octet>([b, c], '/') == b + ['/'] + c;
  }

  /** The credential scope, split on "/". */
  lemma ScopeReads(c: Credentials, datestamp: Octets)
    requires '/' !in datestamp && '/' !in c.region && '/' !in c.service
    ensures Split<Octet>(Scope(c, datestamp), '/') == [datestamp, c.region, c.service, "aws4_request"]
  {
    ScopeIsJoin(c, datestamp);
    var parts := [datestamp, c.region, c.service, TERMINATOR];
    assert '/' !in TERMINATOR;
    SplitJoin<Octet>(parts, '/');
  }

  /** HMAC by one text after the other, each result the key of the next. */
  function Chain(h: Hashes, key: Octets, texts: seq<Octets>): Octets
    decreases |texts|
  {
    if texts == [] then key else Chain(h, h.hmac(key, texts[0]), texts[1..])
  }

  lemma ChainOfFour(h: Hashes, key: Octets, a: Octets, b: Octets, c: Octets, d: Octets)
    ensures Chain(h, key, [a, b, c, d]) == h.hmac(h.hmac(h.hmac(h.hmac(key, a), b), c), d)
  {
    ChainNext(h, key, a, [b, c, d]);
    ChainNext(h, h.hmac(key, a), b, [c, d]);
    ChainNext(h, h.hmac(h.hmac(key, a), b), c, [d]);
    ChainNext(h, h.hmac(h.hmac(h.hmac(key, a), b), c), d, []);
    assert [a] + [b, c, d] == [a, b, c, d] && [b] + [c, d] == [b, c, d] && [c] + [d] == [c, d] && [d] + [] == [d];
  }

  lemma ChainNext(h: Hashes, key: Octets, text: Octets, rest: seq<Octets>)
    ensures Chain(h, key, [text] + rest) == Chain(h, h.hmac(key, text), rest)
  {
    assert ([text] + rest)[1..] == rest;
  }

  /** The signing key is the chain over the parts of the scope that is sent, from "AWS4" and the secret. */
  lemma KeyFollowsScope(h: Hashes, c: Credentials, datestamp: Octets)
    requires '/' !in datestamp && '/' !in c.region && '/' !in c.service
    ensures SigningKey(h, c, datestamp) == Chain(h, "AWS4" + c.secretKey, Split<Octet>(Scope(c, datestamp), '/'))
  {
    ScopeReads(c, datestamp);
    ChainOfFour(h, "AWS4" + c.secretKey, datestamp, c.region, c.service, TERMINATOR);
  }

  lemma ScopeIsOneLine(c: Credentials, datestamp: Octets)
    requires OneLine(datestamp) && OneLine(c.region) && OneLine(c.service)
    ensures OneLine(Scope(c, datestamp))
  {
    assert OneLine("/") && OneLine(TERMINATOR);
  }

  /** The string to sign, split on newlines. */
  lemma StringToSignReads(h: Hashes, c: Credentials, datestamp: Octets, s: Signed)
    requires OneLine(datestamp) && OneLine(c.region) && OneLine(c.service) && OneLine(s.timestamp)
    requires OneLine(h.hex(h.sha256(CanonicalRequest(s))))
    ensures Split<Octet>(StringToSign(h, c, datestamp, s), '\n') ==
              ["AWS4-HMAC-SHA256", s.timestamp, Scope(c, datestamp), h.hex(h.sha256(CanonicalRequest(s)))]
  {
    ScopeIsOneLine(c, datestamp);
    assert OneLine(ALGORITHM);
    SplitJoin<Octet>([ALGORITHM, s.timestamp, Scope(c, datestamp), h.hex(h.sha256(CanonicalRequest(s)))], '\n');
  }

  const HOST: Octets := "host"
  const DATE: Octets := "x-amz-date"
  const TOKEN: Octets := "x-amz-security-token"

  /** The value that goes out for a header that can be signed. */
  function ValueOf(name: Octets, s: Signed): Octets {
    if name == HOST then s.host else if name == DATE then s.timestamp else s.token
  }

  function HeaderLine(name: Octets, value: Octets): Octets {
    name + ":" + value + "\n"
  }

  /** One line for each name, in the order of the list. */
  function HeaderBlock(names: seq<Octets>, s: Signed): Octets {
    if names == [] then [] else HeaderLine(names[0], ValueOf(names[0], s)) + HeaderBlock(names[1..], s)
  }

  function Names(token: Octets): seq<Octets> {
    if token == [] then [HOST, DATE] else [HOST, DATE, TOKEN]
  }

  lemma NamesDiffer3()
    ensures HOST != DATE && HOST != TOKEN && DATE != TOKEN
    ensures ';' !in HOST && ';' !in DATE && ';' !in TOKEN
  {
    assert |HOST| == 4 && |DATE| == 10 && |TOKEN| == 20;
  }

  lemma NamesAscend()
    ensures Less(HOST, DATE) && Less(DATE, TOKEN) && Less(HOST, TOKEN)
  {
    assert FirstDifference(HOST, DATE, 0) && FirstDifference(HOST, TOKEN, 0);
    assert DATE[..6] == TOKEN[..6];
    assert FirstDifference(DATE, TOKEN, 6);
    LessIff(HOST, DATE);
    LessIff(HOST, TOKEN);
    LessIff(DATE, TOKEN);
  }

  lemma ListText(token: Octets)
    ensures SignedHeaders(token) == if token == [] then HOST + [';'] + DATE else HOST + [';'] + (DATE + [';'] + TOKEN)
  {
  }

  lemma NamesRead(token: Octets)
    ensures Split<Octet>(SignedHeaders(token), ';') == Names(token)
  {
    ListText(token);
    NamesDiffer3();
    SplitTwo<Octet>(HOST, DATE, ';');
    SplitThree<Octet>(HOST, DATE, TOKEN, ';');
  }

  lemma BlockNext(name: Octets, rest: seq<Octets>, s: Signed)
    ensures HeaderBlock([name] + rest, s) == HeaderLine(name, ValueOf(name, s)) + HeaderBlock(rest, s)
  {
    assert ([name] + rest)[1..] == rest;
  }

  lemma HeadersText(s: Signed)
    ensures CanonicalHeaders(s) == HeaderLine(HOST, s.host) +
              (HeaderLine(DATE, s.timestamp) + if s.token != [] then HeaderLine(TOKEN, s.token) else [])
  {
    LineText(HOST, s.host);
    LineText(DATE, s.timestamp);
    LineText(TOKEN, s.token);
    HostLine(s.host, HeaderLine(DATE, s.timestamp) + if s.token != [] then HeaderLine(TOKEN, s.token) else []);
  }

  lemma LineText(name: Octets, value: Octets)
    ensures HeaderLine(name, value) == (name + [':']) + value + ['\n']
  {
  }

  lemma HostLine(host: Octets, rest: Octets)
    ensures HeaderLine(HOST, host) + rest == "host:" + host + "\n" + rest
  {
    assert HOST + [':'] == "host:";
  }

  lemma BlockOfNames(s: Signed)
    ensures HeaderBlock(Names(s.token), s) == CanonicalHeaders(s)
  {
    HeadersText(s);
    NamesDiffer3();
    BlockNext(TOKEN, [], s);
    if s.token == [] {
      BlockNext(DATE, [], s);
      BlockNext(HOST, [DATE], s);
      assert [HOST] + [DATE] == Names(s.token) && [DATE] + [] == [DATE];
    } else {
      BlockNext(DATE, [TOKEN], s);
      BlockNext(HOST, [DATE, TOKEN], s);
      assert [HOST] + [DATE, TOKEN] == Names(s.token) && [DATE] + [TOKEN] == [DATE, TOKEN] && [TOKEN] + [] == [TOKEN];
    }
  }

  /** The list of signed headers names, in strictly ascending order, exactly the lines of the header
      block, and the block gives each name the value that goes out. */
  lemma SignedHeadersTell(s: Signed)
    ensures var names := Split<Octet>(SignedHeaders(s.token), ';');
            && HeaderBlock(names, s) == CanonicalHeaders(s)
            && names == Names(s.token) && Ascend(names)
  {
    NamesRead(s.token);
    NamesInOrder(s.token);
    BlockOfNames(s);
  }

  ghost predicate Ascend(names: seq<Octets>) {
    forall i, j :: 0 <= i < j < |names| ==> Less(names[i], names[j])
  }

  lemma ThreeAscend(a: Octets, b: Octets, c: Octets)
    requires Less(a, b) && Less(b, c) && Less(a, c)
    ensures Ascend([a, b]) && Ascend([a, b, c])
  {
  }

  lemma NamesInOrder(token: Octets)
    ensures Ascend(Names(token))
  {
    NamesAscend();
    ThreeAscend(HOST, DATE, TOKEN);
  }

  /** What signature version 4 has a receiver do with an Authorization header, given the secret and the
      request: cut off the algorithm, split the rest on commas, take the scope from the credential and
      the names from the list of signed headers, rebuild the request from those names, derive the key
      from the parts of the scope, and compare signatures. */
  predicate Accepts(h: Hashes, secret: Octets, s: Signed, authorization: Octets) {
    var cut := Cut<Octet>(authorization, ' ');
    cut.Some? && cut.value.0 == "AWS4-HMAC-SHA256" && FieldsCheck(h, secret, s, Split<Octet>(cut.value.1, ','))
  }

  const CREDENTIAL: Octets := "Credential="
  const HEADERS: Octets := " SignedHeaders="
  const SIGNATURE: Octets := " Signature="

  predicate FieldsCheck(h: Hashes, secret: Octets, s: Signed, fields: seq<Octets>) {
    && |fields| == 3 && CREDENTIAL <= fields[0] && HEADERS <= fields[1] && SIGNATURE <= fields[2]
    && Checks(h, secret, s, fields[0][|CREDENTIAL|..], fields[1][|HEADERS|..], fields[2][|SIGNATURE|..])
  }

  predicate Checks(h: Hashes, secret: Octets, s: Signed, credential: Octets, list: Octets, signature: Octets) {
    var cut := Cut<Octet>(credential, '/');
    cut.Some? && signature == Expected(h, secret, s, cut.value.1, list)
  }

  /** The signature that a receiver expects for this scope and this list of signed headers. */
  function Expected(h: Hashes, secret: Octets, s: Signed, scope: Octets, list: Octets): Octets {
    var headers := HeaderBlock(Split<Octet>(list, ';'), s);
    var request := Join<Octet>([s.verb, URIPath(s.path), s.query, headers, list, s.payloadHash], '\n');
    var toSign := Join<Octet>(["AWS4-HMAC-SHA256", s.timestamp, scope, h.hex(h.sha256(request))], '\n');
    h.hex(h.hmac(Chain(h, "AWS4" + secret, Split<Octet>(scope, '/')), toSign))
  }

  lemma SignatureIsExpected(h: Hashes, c: Credentials, datestamp: Octets, s: Signed)
    requires '/' !in datestamp && '/' !in c.region && '/' !in c.service
    ensures Signature(h, c, datestamp, s) == Expected(h, c.secretKey, s, Scope(c, datestamp), SignedHeaders(s.token))
  {
    KeyFollowsScope(h, c, datestamp);
    SignedHeadersTell(s);
  }

  predicate NoComma(t: Octets) {
    ',' !in t
  }

  lemma FieldsRead(a: Octets, b: Octets, c: Octets)
    requires NoComma(a) && NoComma(b) && NoComma(c)
    ensures Split<Octet>(Tail(a, b, c), ',') == [CREDENTIAL + a, HEADERS + b, SIGNATURE + c]
  {
    var x: Octets, y: Octets, z: Octets := CREDENTIAL + a, HEADERS + b, SIGNATURE + c;
    NoCommas(a, b, c);
    TailShape(a, b, c);
    SplitThree<Octet>(x, y, z, ',');
  }

  lemma TailShape(a: Octets, b: Octets, c: Octets)
    ensures Tail(a, b, c) == (CREDENTIAL + a) + [','] + ((HEADERS + b) + [','] + (SIGNATURE + c))
  {
  }

  lemma NoCommas(a: Octets, b: Octets, c: Octets)
    requires NoComma(a) && NoComma(b) && NoComma(c)
    ensures NoComma(CREDENTIAL + a) && NoComma(HEADERS + b) && NoComma(SIGNATURE + c)
  {
    assert NoComma(CREDENTIAL) && NoComma(HEADERS) && NoComma(SIGNATURE);
  }

  /** No field holds a separator of the header. */
  predicate Separable(h: Hashes, c: Credentials, datestamp: Octets, s: Signed) {
    && '/' !in datestamp && '/' !in c.region && '/' !in c.service && '/' !in c.accessKey
    && NoComma(c.accessKey) && NoComma(Scope(c, datestamp)) && NoComma(Signature(h, c, datestamp, s))
  }

  /** Such a receiver accepts what the code sends. */
  lemma ReceiverAccepts(h: Hashes, c: Credentials, datestamp: Octets, s: Signed)
    requires Separable(h, c, datestamp, s)
    ensures Accepts(h, c.secretKey, s, Authorization(h, c, datestamp, s))
  {
    var credential, list := c.accessKey + "/" + Scope(c, datestamp), SignedHeaders(s.token);
    var signature := Signature(h, c, datestamp, s);
    HeaderCut(h, c, datestamp, s);
    assert NoComma(credential) && NoComma(list);
    PartsCheck(h, c, datestamp, s);
    TailPasses(h, c.secretKey, s, credential, list, signature);
  }

  lemma TailPasses(h: Hashes, secret: Octets, s: Signed, credential: Octets, list: Octets, signature: Octets)
    requires NoComma(credential) && NoComma(list) && NoComma(signature)
    requires Checks(h, secret, s, credential, list, signature)
    ensures FieldsCheck(h, secret, s, Split<Octet>(Tail(credential, list, signature), ','))
  {
    FieldsRead(credential, list, signature);
    FieldsPass(h, secret, s, credential, list, signature);
  }

  lemma FieldsPass(h: Hashes, secret: Octets, s: Signed, credential: Octets, list: Octets, signature: Octets)
    requires Checks(h, secret, s, credential, list, signature)
    ensures FieldsCheck(h, secret, s, [CREDENTIAL + credential, HEADERS + list, SIGNATURE + signature])
  {
    AfterPrefix(CREDENTIAL, credential);
    AfterPrefix(HEADERS, list);
    AfterPrefix(SIGNATURE, signature);
  }

  lemma PartsCheck(h: Hashes, c: Credentials, datestamp: Octets, s: Signed)
    requires '/' !in datestamp && '/' !in c.region && '/' !in c.service && '/' !in c.accessKey
    ensures Checks(h, c.secretKey, s, c.accessKey + "/" + Scope(c, datestamp), SignedHeaders(s.token),
                   Signature(h, c, datestamp, s))
  {
    CutAt<Octet>(c.accessKey, Scope(c, datestamp), '/');
    SignatureIsExpected(h, c, datestamp, s);
  }

  function Tail(credential: Octets, list: Octets, signature: Octets): Octets {
    "Credential=" + credential + ", SignedHeaders=" + list + ", Signature=" + signature
  }

  lemma HeaderCut(h: Hashes, c: Credentials, datestamp: Octets, s: Signed)
    ensures Cut<Octet>(Authorization(h, c, datestamp, s), ' ') ==
              Some(("AWS4-HMAC-SHA256", Tail(c.accessKey + "/" + Scope(c, datestamp), SignedHeaders(s.token),
                                             Signature(h, c, datestamp, s))))
  {
    var credential := c.accessKey + "/" + Scope(c, datestamp);
    var tail := Tail(credential, SignedHeaders(s.token), Signature(h, c, datestamp, s));
    AlgorithmFirst(credential, SignedHeaders(s.token), Signature(h, c, datestamp, s));
    assert ' ' !in ALGORITHM;
    CutAt<Octet>(ALGORITHM, tail, ' ');
  }

  lemma AlgorithmFirst(credential: Octets, list: Octets, signature: Octets)
    ensures ALGORITHM + " Credential=" + credential + ", SignedHeaders=" + list + ", Signature=" + signature ==
            ALGORITHM + [' '] + Tail(credential, list, signature)
  {
    assert " Credential=" == [' '] + "Credential=";
  }

  lemma AfterPrefix(a: Octets, b: Octets)
    ensures a <= a + b && (a + b)[|a|..] == b
  {
  }

  // ---------------------------------------------------------------- the headers

  /** The headers that go out. */
  function Sent(headers: map<string, Octets>, timestamp: Octets, token: Octets, authorization: Octets): map<string, Octets> {
    var dated := headers["X-Amz-Date" := timestamp];
    (if token != [] then dated["X-Amz-Security-Token" := token] else dated)["Authorization" := authorization]
  }

  lemma NamesDiffer()
    ensures "X-Amz-Date" != "Authorization" && "X-Amz-Date" != "X-Amz-Security-Token"
    ensures "X-Amz-Security-Token" != "Authorization"
  {
    assert |"X-Amz-Date"| == 10 && |"Authorization"| == 13 && |"X-Amz-Security-Token"| == 20;
  }

  lemma SentKeys(headers: map<string, Octets>, timestamp: Octets, token: Octets, authorization: Octets)
    ensures Sent(headers, timestamp, token, authorization).Keys == headers.Keys + {"X-Amz-Date", "Authorization"} +
              if token != [] then {"X-Amz-Security-Token"} else {}
  {
  }

  lemma SentValues(headers: map<string, Octets>, timestamp: Octets, token: Octets, authorization: Octets)
    ensures var out := Sent(headers, timestamp, token, authorization);
            && out["X-Amz-Date"] == timestamp && out["Authorization"] == authorization
            && (token != [] ==> out["X-Amz-Security-Token"] == token)
            && forall k :: k in headers && k !in {"X-Amz-Date", "Authorization", "X-Amz-Security-Token"} ==>
                 k in out && out[k] == headers[k]
  {
    NamesDiffer();
  }

  class HttpRequest {
    const verb: Octets
    const path: Octets
    const rawQuery: Octets
    const urlHost: Octets
    const hostField: Octets
    var headers: map<string, Octets>

    constructor (verb: Octets, path: Octets, rawQuery: Octets, urlHost: Octets, hostField: Octets)
      ensures this.verb == verb && this.path == path && this.rawQuery == rawQuery
      ensures this.urlHost == urlHost && this.hostField == hostField && headers == map[]
    {
      this.verb, this.path, this.rawQuery, this.urlHost, this.hostField := verb, path, rawQuery, urlHost, hostField;
      headers := map[];
    }

    /** The signature covers this request's own fields, its host being that of the URL if there is one,
        and exactly the date and token that go out as headers, and a receiver that knows the secret
        accepts it; no other header is touched. */
    method SignRequest(h: Hashes, c: Credentials, payloadHash: Octets, timestamp: Octets, datestamp: Octets)
      modifies this
      ensures headers.Keys == old(headers.Keys) + {"X-Amz-Date", "Authorization"} +
                              if c.token != [] then {"X-Amz-Security-Token"} else {}
      ensures headers["X-Amz-Date"] == timestamp
      ensures c.token != [] ==> headers["X-Amz-Security-Token"] == c.token
      ensures exists q ::
                && IsCanonicalQuery(rawQuery, q)
                && var host := if urlHost == [] then hostField else urlHost;
                   var s := Signed(verb, path, q, host, timestamp, c.token, payloadHash);
                   && headers["Authorization"] == Authorization(h, c, datestamp, s)
                   && (Separable(h, c, datestamp, s) ==> Accepts(h, c.secretKey, s, headers["Authorization"]))
      ensures forall k :: k in old(headers) && k !in {"X-Amz-Date", "Authorization", "X-Amz-Security-Token"} ==>
                headers[k] == old(headers)[k]
    {
      headers := headers["X-Amz-Date" := timestamp];
      if c.token != [] {
        headers := headers["X-Amz-Security-Token" := c.token];
      }
      var host := urlHost;
      if host == [] {
        host := hostField;
      }
      var query := CanonicalQueryString(rawQuery);
      var uri := CanonicalURIPath(path);
      var s := Signed(verb, path, query, host, timestamp, c.token, payloadHash);
      var request := Join<Octet>([verb, uri, query, CanonicalHeaders(s), SignedHeaders(c.token), payloadHash], '\n');
      assert request == CanonicalRequest(s);
      headers := headers["Authorization" := Authorization(h, c, datestamp, s)];
      if Separable(h, c, datestamp, s) {
        ReceiverAccepts(h, c, datestamp, s);
      }
      SentKeys(old(headers), timestamp, c.token, Authorization(h, c, datestamp, s));
      SentValues(old(headers), timestamp, c.token, Authorization(h, c, datestamp, s));
    }
  }
}
