/**
 The normaliser for asset image fields: on-chain chunks are joined, URLs are cleaned, hex-encoded metadata is decoded
 and searched for a URL, and anything that looks like base64 becomes a data URL.

 Two things the source takes from its runtime are parameters: `utf8`, the decoding of a byte buffer into text, and
 `looksSvg`, the test on the decoded start of a base64 payload.
 */
module AssetImage {
  import opened Wrappers
  import opened Utf16

  type Byte = x: int | 0 <= x < 256

  type Decoder = seq<Byte> -> Text

  const MAX_HEX_METADATA_CHARS := 64 * 1024

  const IPFS: Text := [0x69, 0x70, 0x66, 0x73, 0x3a, 0x2f, 0x2f]           // ipfs://
  const IPFS_SEGMENT: Text := [0x69, 0x70, 0x66, 0x73, 0x2f]               // ipfs/
  const HTTP: Text := [0x68, 0x74, 0x74, 0x70, 0x3a, 0x2f, 0x2f]           // http://
  const HTTPS: Text := [0x68, 0x74, 0x74, 0x70, 0x73, 0x3a, 0x2f, 0x2f]    // https://
  const DATA: Text := [0x64, 0x61, 0x74, 0x61, 0x3a]                       // data:
  const COLON: CodeUnit := 0x3a

  // ----- Prefixes and character classes -----

  /** The text without the ipfs/ segments it starts with. */
  function DropSegments(s: Text): (r: Text)
    ensures !(IPFS_SEGMENT <= r)
    decreases |s|
  {
    if IPFS_SEGMENT <= s then DropSegments(s[5..]) else s
  }

  /** s.replace(/^ipfs:\/\/(ipfs\/)+/, 'ipfs://') */
  function CollapseIpfs(s: Text): Text {
    if IPFS <= s then IPFS + DropSegments(s[7..]) else s
  }

  predicate IsUsable(s: Text) {
    HTTP <= s || HTTPS <= s || IPFS <= s || DATA <= s
  }

  predicate IsHexDigit(c: CodeUnit) {
    0x30 <= c <= 0x39 || 0x61 <= c <= 0x66 || 0x41 <= c <= 0x46
  }

  predicate AllHex(s: Text) {
    forall i :: 0 <= i < |s| ==> IsHexDigit(s[i])
  }

  function HexValue(c: CodeUnit): int {
    if 0x30 <= c <= 0x39 then c - 0x30
    else if 0x61 <= c <= 0x66 then c - 0x61 + 10
    else if 0x41 <= c <= 0x46 then c - 0x41 + 10
    else 0
  }

  lemma HexValueFits(c: CodeUnit)
    requires IsHexDigit(c)
    ensures 0 <= HexValue(c) < 16
  {
  }

  /** Buffer.from(s, 'hex') */
  function HexDecode(s: Text): (r: seq<Byte>)
    requires |s| % 2 == 0 && AllHex(s)
    ensures |r| == |s| / 2
  {
    if s == [] then []
    else
      HexValueFits(s[0]);
      HexValueFits(s[1]);
      [HexValue(s[0]) * 16 + HexValue(s[1])] + HexDecode(s[2..])
  }

  // ----- Finding a URL: /(ipfs:\/\/\S+|https?:\/\/\S+)/i -----

  function Lower(c: CodeUnit): CodeUnit {
    if 0x41 <= c <= 0x5a then c + 0x20 else c
  }

  predicate StartsWithIgnoringCase(s: Text, prefix: Text) {
    |prefix| <= |s| && forall i :: 0 <= i < |prefix| ==> Lower(s[i]) == prefix[i]
  }

  predicate UrlStarts(s: Text) {
    || (StartsWithIgnoringCase(s, IPFS) && WordLength(s) > 7)
    || (StartsWithIgnoringCase(s, HTTP) && WordLength(s) > 7)
    || (StartsWithIgnoringCase(s, HTTPS) && WordLength(s) > 8)
  }

  /** The leftmost match. */
  function FindUrl(s: Text): Option<Text> {
    if s == [] then None
    else if UrlStarts(s) then Some(s[..WordLength(s)])
    else FindUrl(s[1..])
  }

  // ----- Base64 -----

  function RemoveSpace(s: Text): (r: Text)
    ensures NoSpace(r)
  {
    if s == [] then [] else (if IsSpace(s[0]) then [] else [s[0]]) + RemoveSpace(s[1..])
  }

  predicate IsBase64Char(c: CodeUnit) {
    0x41 <= c <= 0x5a || 0x61 <= c <= 0x7a || 0x30 <= c <= 0x39 || c == 0x2b || c == 0x2f
  }

  function WithoutPadding(s: Text): Text {
    if s != [] && s[|s| - 1] == 0x3d then WithoutPadding(s[..|s| - 1]) else s
  }

  /** /^[A-Za-z0-9+/]+=*$/ */
  predicate Base64Shaped(s: Text) {
    var body := WithoutPadding(s);
    body != [] && forall i :: 0 <= i < |body| ==> IsBase64Char(body[i])
  }

  const PNG: Text := [0x64, 0x61, 0x74, 0x61, 0x3a, 0x69, 0x6d, 0x61, 0x67, 0x65, 0x2f, 0x70, 0x6e, 0x67, 0x3b,
                      0x62, 0x61, 0x73, 0x65, 0x36, 0x34, 0x2c]                        // data:image/png;base64,
  const JPEG: Text := [0x64, 0x61, 0x74, 0x61, 0x3a, 0x69, 0x6d, 0x61, 0x67, 0x65, 0x2f, 0x6a, 0x70, 0x65, 0x67, 0x3b,
                       0x62, 0x61, 0x73, 0x65, 0x36, 0x34, 0x2c]           // data:image/jpeg;base64,
  const GIF: Text := [0x64, 0x61, 0x74, 0x61, 0x3a, 0x69, 0x6d, 0x61, 0x67, 0x65, 0x2f, 0x67, 0x69, 0x66, 0x3b,
                      0x62, 0x61, 0x73, 0x65, 0x36, 0x34, 0x2c]                        // data:image/gif;base64,
  const WEBP: Text := [0x64, 0x61, 0x74, 0x61, 0x3a, 0x69, 0x6d, 0x61, 0x67, 0x65, 0x2f, 0x77, 0x65, 0x62, 0x70, 0x3b,
                       0x62, 0x61, 0x73, 0x65, 0x36, 0x34, 0x2c]           // data:image/webp;base64,
  const SVG: Text := [0x64, 0x61, 0x74, 0x61, 0x3a, 0x69, 0x6d, 0x61, 0x67, 0x65, 0x2f, 0x73, 0x76, 0x67, 0x2b,
                      0x78, 0x6d, 0x6c, 0x3b, 0x62, 0x61, 0x73, 0x65, 0x36, 0x34, 0x2c]  // data:image/svg+xml;base64,

  /** The data URL head for a payload, by its signature. */
  function Head(b64: Text, looksSvg: Text -> bool): (h: Text)
    ensures DATA <= h
  {
    if [0x69, 0x56, 0x42, 0x4f, 0x52] <= b64 then PNG             // iVBOR
    else if [0x2f, 0x39, 0x6a, 0x2f] <= b64 then JPEG              // /9j/
    else if [0x52, 0x30, 0x6c, 0x47, 0x4f, 0x44] <= b64 then GIF   // R0lGOD
    else if [0x55, 0x6b, 0x6c, 0x47, 0x52] <= b64 then WEBP        // UklGR
    else if looksSvg(b64) then SVG
    else PNG
  }

  // ----- The normaliser -----

  /** A string goes through the hex branch at most once: the URL found there contains a colon. */
  function HexRank(raw: Text): nat {
    if AllHex(Trim(raw)) then 1 else 0
  }

  function NormalizeText(raw: Text, utf8: Decoder, looksSvg: Text -> bool): Option<Text>
    decreases HexRank(raw)
  {
    var trimmed := Trim(raw);
    if trimmed == [] then None
    else
      var s := CollapseIpfs(trimmed);
      if IsUsable(s) then Some(s)
      else if |s| % 2 == 0 && AllHex(s) then
        if |s| > MAX_HEX_METADATA_CHARS then None
        else
          var url := FindUrl(utf8(HexDecode(s)));
          if url.Some? then
            UrlIsNotHex(utf8(HexDecode(s)));
            NormalizeText(Trim(url.value), utf8, looksSvg)
          else None
      else
        var b64 := RemoveSpace(s);
        if !Base64Shaped(b64) || |b64| < 32 then None else Some(Head(b64, looksSvg) + b64)
  }

  /** The field as it may come: absent, a string, or an array of chunks (anything but a string counting as empty). */
  datatype Raw = Absent | Single(s: Text) | Chunked(chunks: seq<Option<Text>>)

  function Join(chunks: seq<Option<Text>>): Text {
    if chunks == [] then [] else (if chunks[0].Some? then chunks[0].value else []) + Join(chunks[1..])
  }

  function Normalize(raw: Raw, utf8: Decoder, looksSvg: Text -> bool): Option<Text> {
    match raw
    case Absent => None
    case Single(s) => NormalizeText(s, utf8, looksSvg)
    case Chunked(chunks) => NormalizeText(Join(chunks), utf8, looksSvg)
  }

  /** The text the normaliser works on; an absent field is like an empty one. */
  function TextOf(raw: Raw): Text {
    match raw
    case Absent => []
    case Single(s) => s
    case Chunked(chunks) => Join(chunks)
  }

  lemma NormalizeIsOfText(raw: Raw, utf8: Decoder, looksSvg: Text -> bool)
    ensures Normalize(raw, utf8, looksSvg) == NormalizeText(TextOf(raw), utf8, looksSvg)
  {
    assert Trim([]) == [];
  }

  // ----- URLs -----

  lemma {:induction false} FoundUrlStarts(s: Text)
    requires FindUrl(s).Some?
    ensures var u := FindUrl(s).value; NoSpace(u) && UrlStarts(u) && WordLength(u) == |u|
  {
    if UrlStarts(s) {
      var n := WordLength(s);
      RunOfRun(s);
      assert forall i :: 0 <= i < n ==> s[..n][i] == s[i];
    } else {
      FoundUrlStarts(s[1..]);
    }
  }

  lemma {:induction false} RunOfRun(s: Text)
    ensures WordLength(s[..WordLength(s)]) == WordLength(s)
  {
    if s != [] && !IsSpace(s[0]) {
      RunOfRun(s[1..]);
      assert s[..WordLength(s)][1..] == s[1..][..WordLength(s[1..])];
    }
  }

  /** A URL start has its colon within the first six units. */
  lemma UrlHasColon(u: Text)
    requires UrlStarts(u)
    ensures |u| > 7 && (u[4] == COLON || u[5] == COLON)
  {
    if StartsWithIgnoringCase(u, IPFS) {
      assert Lower(u[4]) == IPFS[4];
    } else if StartsWithIgnoringCase(u, HTTP) {
      assert Lower(u[4]) == HTTP[4];
    } else {
      assert Lower(u[5]) == HTTPS[5];
    }
  }

  lemma UrlIsNotHex(s: Text)
    requires FindUrl(s).Some?
    ensures Trim(FindUrl(s).value) == FindUrl(s).value
    ensures HexRank(Trim(FindUrl(s).value)) == 0
  {
    var u := FindUrl(s).value;
    FoundUrlStarts(s);
    UrlHasColon(u);
    TrimIsIdentity(u);
    assert !IsHexDigit(COLON);
  }

  // ----- Idempotence -----

  lemma {:induction false} DropSegmentsIsSuffix(s: Text)
    ensures |DropSegments(s)| <= |s| && s[|s| - |DropSegments(s)|..] == DropSegments(s)
    decreases |s|
  {
    if IPFS_SEGMENT <= s {
      DropSegmentsIsSuffix(s[5..]);
    }
  }

  lemma CollapsedEnds(s: Text)
    requires IPFS <= s && !IsSpace(s[|s| - 1])
    ensures var c := CollapseIpfs(s);
            IPFS <= c && c[7..] == DropSegments(s[7..]) && !IsSpace(c[|c| - 1])
  {
    var c, rest := CollapseIpfs(s), DropSegments(s[7..]);
    DropSegmentsIsSuffix(s[7..]);
    if rest != [] {
      assert c[|c| - 1] == rest[|rest| - 1] == s[|s| - 1];
    } else {
      assert c == IPFS;
    }
  }

  lemma CollapseKeepsTrimmed(s: Text)
    requires s != [] && !IsSpace(s[0]) && !IsSpace(s[|s| - 1])
    ensures var c := CollapseIpfs(s);
            c != [] && !IsSpace(c[0]) && !IsSpace(c[|c| - 1]) && CollapseIpfs(c) == c
  {
    if IPFS <= s {
      var c := CollapseIpfs(s);
      CollapsedEnds(s);
      assert c[0] == IPFS[0];
      assert IPFS + c[7..] == c;
    }
  }

  lemma UsableIsFixed(s: Text, utf8: Decoder, looksSvg: Text -> bool)
    requires s != [] && !IsSpace(s[0]) && !IsSpace(s[|s| - 1]) && CollapseIpfs(s) == s && IsUsable(s)
    ensures NormalizeText(s, utf8, looksSvg) == Some(s)
  {
    TrimIsIdentity(s);
  }

  lemma DataUrlIsFixed(h: Text, b64: Text, utf8: Decoder, looksSvg: Text -> bool)
    requires DATA <= h && b64 != [] && NoSpace(b64)
    ensures NormalizeText(h + b64, utf8, looksSvg) == Some(h + b64)
  {
    var s := h + b64;
    assert s[0] == DATA[0] && s[|s| - 1] == b64[|b64| - 1];
    assert !(IPFS <= s) by {
      assert s[0] != IPFS[0];
    }
    assert s[..5] == DATA;
    UsableIsFixed(s, utf8, looksSvg);
  }

  /** Normalising a result again changes nothing, repeated ipfs/ segments included. */
  lemma {:induction false} NormalizeIsIdempotent(raw: Text, utf8: Decoder, looksSvg: Text -> bool)
    requires NormalizeText(raw, utf8, looksSvg).Some?
    ensures NormalizeText(NormalizeText(raw, utf8, looksSvg).value, utf8, looksSvg) ==
            NormalizeText(raw, utf8, looksSvg)
    decreases HexRank(raw)
  {
    var trimmed := Trim(raw);
    var s := CollapseIpfs(trimmed);
    TrimIsTrimmed(raw);
    CollapseKeepsTrimmed(trimmed);
    if IsUsable(s) {
      UsableIsFixed(s, utf8, looksSvg);
    } else if |s| % 2 == 0 && AllHex(s) {
      var decoded := utf8(HexDecode(s));
      UrlIsNotHex(decoded);
      NormalizeIsIdempotent(Trim(FindUrl(decoded).value), utf8, looksSvg);
    } else {
      DataUrlIsFixed(Head(RemoveSpace(s), looksSvg), RemoveSpace(s), utf8, looksSvg);
    }
  }

  /** ... whatever form the field came in, chunks included; what comes out can be stored as a plain string. */
  lemma NormalizeFieldIsIdempotent(raw: Raw, utf8: Decoder, looksSvg: Text -> bool)
    requires Normalize(raw, utf8, looksSvg).Some?
    ensures Normalize(Single(Normalize(raw, utf8, looksSvg).value), utf8, looksSvg) == Normalize(raw, utf8, looksSvg)
  {
    NormalizeIsOfText(raw, utf8, looksSvg);
    NormalizeIsIdempotent(TextOf(raw), utf8, looksSvg);
  }

  lemma {:induction false} JoinAppend(a: seq<Option<Text>>, b: seq<Option<Text>>)
    ensures Join(a + b) == Join(a) + Join(b)
  {
    if a == [] {
      assert a + b == b;
    } else {
      assert (a + b)[1..] == a[1..] + b;
      JoinAppend(a[1..], b);
    }
  }

  lemma JoinOne(s: Text)
    ensures Join([Some(s)]) == s
  {
    assert [Some(s)][1..] == [] && s + [] == s;
  }

  /** Cutting a field into chunks, anywhere and with chunks that are no strings in between, makes no difference. */
  lemma ChunkingMakesNoDifference(a: seq<Option<Text>>, s: Text, t: Text, b: seq<Option<Text>>, utf8: Decoder,
                                  looksSvg: Text -> bool)
    ensures Normalize(Chunked(a + [Some(s), None, Some(t)] + b), utf8, looksSvg) ==
            Normalize(Chunked(a + [Some(s + t)] + b), utf8, looksSvg)
  {
    JoinAppend(a + [Some(s), None, Some(t)], b);
    JoinAppend(a, [Some(s), None, Some(t)]);
    JoinAppend(a + [Some(s + t)], b);
    JoinAppend(a, [Some(s + t)]);
    assert [Some(s), None, Some(t)][1..] == [None, Some(t)] && [None, Some(t)][1..] == [Some(t)];
    JoinOne(t);
    JoinOne(s + t);
    assert Join([None, Some(t)]) == [] + t == t;
    assert Join([Some(s), None, Some(t)]) == s + t;
  }

  // ----- Hex-encoded metadata -----

  function HexDigit(v: int): CodeUnit
    requires 0 <= v < 16
  {
    if v < 10 then 0x30 + v else 0x61 + v - 10
  }

  function HexEncode(bytes: seq<Byte>): Text {
    if bytes == [] then [] else [HexDigit(bytes[0] / 16), HexDigit(bytes[0] % 16)] + HexEncode(bytes[1..])
  }

  lemma {:induction false} HexRoundTrip(bytes: seq<Byte>)
    ensures |HexEncode(bytes)| == 2 * |bytes| && AllHex(HexEncode(bytes))
    ensures HexDecode(HexEncode(bytes)) == bytes
  {
    if bytes != [] {
      HexRoundTrip(bytes[1..]);
      var h := HexEncode(bytes);
      assert h[2..] == HexEncode(bytes[1..]);
      assert HexValue(h[0]) == bytes[0] / 16 && HexValue(h[1]) == bytes[0] % 16;
    }
  }

  ghost predicate IsAscii(bytes: seq<Byte>) {
    forall i :: 0 <= i < |bytes| ==> bytes[i] < 128
  }

  /** ASCII bytes as text. */
  function AsText(bytes: seq<Byte>): Text {
    seq(|bytes|, i requires 0 <= i < |bytes| => bytes[i])
  }

  /** What UTF-8 guarantees of any decoder: ASCII stands for itself. */
  ghost predicate DecodesAscii(utf8: Decoder) {
    forall bytes :: IsAscii(bytes) ==> utf8(bytes) == AsText(bytes)
  }

  lemma HexTextTakesHexBranch(s: Text)
    requires s != [] && AllHex(s)
    ensures Trim(s) == s && CollapseIpfs(s) == s && !IsUsable(s)
  {
    assert forall i :: 0 <= i < |s| ==> !IsSpace(s[i]);
    TrimIsIdentity(s);
    assert IsHexDigit(s[0]) && (|s| > 2 ==> IsHexDigit(s[2]));
  }

  lemma HexBranch(s: Text, decoded: Text, utf8: Decoder, looksSvg: Text -> bool)
    requires s != [] && |s| % 2 == 0 && AllHex(s) && decoded == utf8(HexDecode(s))
    ensures NormalizeText(s, utf8, looksSvg) ==
            if |s| > MAX_HEX_METADATA_CHARS then None else FromDecoded(decoded, utf8, looksSvg)
  {
    HexTextTakesHexBranch(s);
    if FindUrl(decoded).Some? {
      UrlIsNotHex(decoded);
    }
  }

  lemma DecodedHex(text: seq<Byte>, utf8: Decoder)
    requires IsAscii(text) && DecodesAscii(utf8)
    ensures var h := HexEncode(text);
            |h| == 2 * |text| && AllHex(h) && |h| % 2 == 0 && utf8(HexDecode(h)) == AsText(text)
  {
    HexRoundTrip(text);
  }

  /** What becomes of decoded metadata: the result of its first URL. */
  function FromDecoded(decoded: Text, utf8: Decoder, looksSvg: Text -> bool): Option<Text> {
    var url := FindUrl(decoded);
    if url.Some? then NormalizeText(url.value, utf8, looksSvg) else None
  }

  /** Hex digits in either case that spell an ASCII text are normalised to whatever the text's first URL is normalised
      to, and to nothing if it has no URL or the hex is over the size cap. */
  lemma HexMetadata(s: Text, utf8: Decoder, looksSvg: Text -> bool)
    requires s != [] && |s| % 2 == 0 && AllHex(s) && IsAscii(HexDecode(s)) && DecodesAscii(utf8)
    ensures NormalizeText(s, utf8, looksSvg) ==
            if |s| > 65536 then None else FromDecoded(AsText(HexDecode(s)), utf8, looksSvg)
  {
    HexBranch(s, AsText(HexDecode(s)), utf8, looksSvg);
  }

  /** The same for a field in any form. */
  lemma HexMetadataField(raw: Raw, utf8: Decoder, looksSvg: Text -> bool)
    requires var s := TextOf(raw); s != [] && |s| % 2 == 0 && AllHex(s) && IsAscii(HexDecode(s))
    requires DecodesAscii(utf8)
    ensures var s := TextOf(raw);
            Normalize(raw, utf8, looksSvg) ==
            if |s| > 65536 then None else FromDecoded(AsText(HexDecode(s)), utf8, looksSvg)
  {
    NormalizeIsOfText(raw, utf8, looksSvg);
    HexMetadata(TextOf(raw), utf8, looksSvg);
  }

  /** No URL starts inside the prefix. */
  ghost predicate CleanPrefix(prefix: Text, url: Text) {
    forall i :: 0 <= i < |prefix| ==> !UrlStarts((prefix + url)[i..])
  }

  lemma CleanTail(prefix: Text, url: Text)
    requires prefix != [] && CleanPrefix(prefix, url)
    ensures !UrlStarts(prefix + url) && (prefix + url)[1..] == prefix[1..] + url && CleanPrefix(prefix[1..], url)
  {
    assert (prefix + url)[0..] == prefix + url;
    forall i | 0 <= i < |prefix[1..]| ensures !UrlStarts((prefix[1..] + url)[i..]) {
      assert (prefix[1..] + url)[i..] == (prefix + url)[i + 1..];
    }
  }

  lemma {:induction false} FirstUrlAfterPrefix(prefix: Text, url: Text)
    requires CleanPrefix(prefix, url) && UrlStarts(url) && NoSpace(url)
    ensures FindUrl(prefix + url) == Some(url)
  {
    if prefix == [] {
      assert prefix + url == url;
      FullRun(url);
      assert url[..|url|] == url;
    } else {
      CleanTail(prefix, url);
      FirstUrlAfterPrefix(prefix[1..], url);
    }
  }

  lemma {:induction false} FullRun(s: Text)
    requires NoSpace(s)
    ensures WordLength(s) == |s|
  {
    if s != [] {
      FullRun(s[1..]);
    }
  }

  /** The case the branch is written for: a CBOR prefix in front of a URL. The hex form gives the same result as the URL
      itself. */
  lemma HexOfPrefixedUrl(prefix: seq<Byte>, url: seq<Byte>, utf8: Decoder, looksSvg: Text -> bool)
    requires IsAscii(prefix) && IsAscii(url) && DecodesAscii(utf8)
    requires UrlStarts(AsText(url)) && NoSpace(AsText(url)) && CleanPrefix(AsText(prefix), AsText(url))
    requires 2 * (|prefix| + |url|) <= MAX_HEX_METADATA_CHARS
    ensures NormalizeText(HexEncode(prefix + url), utf8, looksSvg) == NormalizeText(AsText(url), utf8, looksSvg)
  {
    UrlHasColon(AsText(url));
    AsTextAppend(prefix, url);
    FirstUrlAfterPrefix(AsText(prefix), AsText(url));
    HexOfText(prefix + url, AsText(url), utf8, looksSvg);
  }

  lemma AsTextAppend(a: seq<Byte>, b: seq<Byte>)
    ensures AsText(a + b) == AsText(a) + AsText(b)
  {
  }

  lemma HexOfText(text: seq<Byte>, url: Text, utf8: Decoder, looksSvg: Text -> bool)
    requires text != [] && IsAscii(text) && DecodesAscii(utf8) && 2 * |text| <= MAX_HEX_METADATA_CHARS
    requires FindUrl(AsText(text)) == Some(url)
    ensures NormalizeText(HexEncode(text), utf8, looksSvg) == NormalizeText(url, utf8, looksSvg)
  {
    DecodedHex(text, utf8);
    HexBranch(HexEncode(text), AsText(text), utf8, looksSvg);
  }

  /** A URL found that way survives only in lower case: the search ignores case, the test that follows does not. */
  lemma FoundUrlResult(text: Text, utf8: Decoder, looksSvg: Text -> bool)
    requires FindUrl(text).Some?
    ensures var u := FindUrl(text).value;
            NormalizeText(u, utf8, looksSvg) ==
            if IPFS <= u || HTTP <= u || HTTPS <= u then Some(CollapseIpfs(u)) else None
  {
    var u := FindUrl(text).value;
    FoundUrlStarts(text);
    UrlHasColon(u);
    UrlIsNotHex(text);
    assert !IsHexDigit(COLON);
    NoSpaceRemoved(u);
    PaddingKeepsColon(u, if u[4] == COLON then 4 else 5);
    if DATA <= u {
      DataIsNoUrl(u);
    }
  }

  lemma DataIsNoUrl(u: Text)
    requires DATA <= u
    ensures !UrlStarts(u)
  {
    assert Lower(u[0]) == 0x64;
    assert IPFS[0] != 0x64 && HTTP[0] != 0x64 && HTTPS[0] != 0x64;
  }

  lemma {:induction false} NoSpaceRemoved(s: Text)
    requires NoSpace(s)
    ensures RemoveSpace(s) == s
  {
    if s != [] {
      NoSpaceRemoved(s[1..]);
    }
  }

  lemma {:induction false} PaddingKeepsColon(s: Text, i: nat)
    requires i < |s| && s[i] == COLON
    ensures !Base64Shaped(s)
    ensures i < |WithoutPadding(s)| && WithoutPadding(s)[i] == COLON
  {
    if s[|s| - 1] == 0x3d {
      PaddingKeepsColon(s[..|s| - 1], i);
    }
    assert !IsBase64Char(COLON);
  }
}
