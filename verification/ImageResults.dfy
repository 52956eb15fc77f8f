/**
 What the image normaliser answers, branch by branch, in terms of the characters of the field.
 */
module ImageResults {
  import opened Wrappers
  import opened Utf16
  import opened AssetImage

  // ----- Literals and character classes -----

  lemma SchemesSpell()
    ensures IPFS == Ascii("ipfs://") && HTTP == Ascii("http://") && HTTPS == Ascii("https://")
    ensures IPFS_SEGMENT == Ascii("ipfs/") && DATA == Ascii("data:") && COLON == ':' as int
  {
  }

  lemma PngSpells()
    ensures PNG == Ascii("data:image/png;base64,")
  {
  }

  lemma JpegSpells()
    ensures JPEG == Ascii("data:image/jpeg;base64,")
  {
  }

  lemma GifSpells()
    ensures GIF == Ascii("data:image/gif;base64,")
  {
  }

  lemma WebpSpells()
    ensures WEBP == Ascii("data:image/webp;base64,")
  {
  }

  lemma SvgSpells()
    ensures SVG == Ascii("data:image/svg+xml;base64,")
  {
  }

  lemma ClassesSpell(c: CodeUnit)
    ensures IsHexDigit(c) <==> Between(c, '0', '9') || Between(c, 'a', 'f') || Between(c, 'A', 'F')
    ensures Between(c, '0', '9') ==> HexValue(c) == c - '0' as int
    ensures Between(c, 'a', 'f') ==> HexValue(c) == 10 + c - 'a' as int
    ensures Between(c, 'A', 'F') ==> HexValue(c) == 10 + c - 'A' as int
    ensures IsBase64Char(c) <==>
              Between(c, 'A', 'Z') || Between(c, 'a', 'z') || Between(c, '0', '9') || Is(c, '+') || Is(c, '/')
  {
  }

  // ----- URLs as they are -----

  /** A URL or data URL is returned trimmed and otherwise as it is. */
  lemma UrlIsKept(raw: Text, utf8: Decoder, looksSvg: Text -> bool)
    requires var t := Trim(raw);
             Ascii("http://") <= t || Ascii("https://") <= t || Ascii("data:") <= t
    ensures NormalizeText(raw, utf8, looksSvg) == Some(Trim(raw))
  {
    SchemesSpell();
    var t := Trim(raw);
    assert t[0] != IPFS[0] by {
      assert t[0] == HTTP[0] || t[0] == DATA[0];
    }
  }

  /** ipfs/ so many times over. */
  ghost function Segments(n: nat): Text {
    if n == 0 then [] else IPFS_SEGMENT + Segments(n - 1)
  }

  lemma {:induction false} SegmentsAreDropped(n: nat, rest: Text)
    requires !(IPFS_SEGMENT <= rest)
    ensures DropSegments(Segments(n) + rest) == rest
  {
    if n == 0 {
      assert Segments(0) + rest == rest;
    } else {
      var s := Segments(n) + rest;
      assert s == IPFS_SEGMENT + (Segments(n - 1) + rest);
      assert s[..5] == IPFS_SEGMENT && s[5..] == Segments(n - 1) + rest;
      SegmentsAreDropped(n - 1, rest);
    }
  }

  /** An ipfs URL loses every ipfs/ it starts with. */
  lemma IpfsIsCollapsed(raw: Text, n: nat, rest: Text, utf8: Decoder, looksSvg: Text -> bool)
    requires Trim(raw) == Ascii("ipfs://") + Segments(n) + rest && !(Ascii("ipfs/") <= rest)
    ensures NormalizeText(raw, utf8, looksSvg) == Some(Ascii("ipfs://") + rest)
  {
    SchemesSpell();
    SegmentsAreDropped(n, rest);
    var t := Trim(raw);
    assert t == IPFS + (Segments(n) + rest);
    assert t[..7] == IPFS && t[7..] == Segments(n) + rest;
    assert (IPFS + rest)[..7] == IPFS;
  }

  // ----- URLs in decoded metadata -----

  /** The letter in either case, any other character itself. */
  ghost predicate Same(c: CodeUnit, ch: CodeUnit) {
    c == ch || (Between(ch, 'a', 'z') && c == ch - 32)
  }

  ghost predicate StartsWith(s: Text, scheme: Text) {
    |scheme| < |s| && !IsSpace(s[|scheme|]) && forall i :: 0 <= i < |scheme| ==> Same(s[i], scheme[i])
  }

  lemma SchemeStarts(s: Text, scheme: Text)
    requires forall i :: 0 <= i < |scheme| ==> 0x2f <= scheme[i] <= 0x3a || Between(scheme[i], 'a', 'z')
    ensures StartsWithIgnoringCase(s, scheme) && WordLength(s) > |scheme| <==> StartsWith(s, scheme)
  {
    if StartsWithIgnoringCase(s, scheme) && WordLength(s) > |scheme| {
      assert s[..WordLength(s)][|scheme|] == s[|scheme|];
      forall i | 0 <= i < |scheme| ensures Same(s[i], scheme[i]) {
        assert Lower(s[i]) == scheme[i];
      }
    }
    if StartsWith(s, scheme) {
      forall i | 0 <= i < |scheme| ensures Lower(s[i]) == scheme[i] && !IsSpace(s[i]) {
        assert Same(s[i], scheme[i]);
      }
      assert forall i :: 0 <= i <= |scheme| ==> !IsSpace(s[i]);
    }
  }

  /** A URL starts where one of the three schemes does, in any case, with something other than whitespace after it. */
  lemma UrlStartsIff(s: Text)
    ensures UrlStarts(s) <==>
            StartsWith(s, Ascii("ipfs://")) || StartsWith(s, Ascii("http://")) || StartsWith(s, Ascii("https://"))
  {
    SchemesSpell();
    SchemeStarts(s, IPFS);
    SchemeStarts(s, HTTP);
    SchemeStarts(s, HTTPS);
  }

  /** The URL found starts at `i` and goes up to the next whitespace. */
  ghost predicate FoundAt(s: Text, u: Text, i: nat) {
    && i + |u| <= |s| && u == s[i..i + |u|] && UrlStarts(s[i..]) && NoSpace(u)
    && (i + |u| < |s| ==> IsSpace(s[i + |u|]))
  }

  lemma FoundShift(s: Text, u: Text, i: nat)
    requires s != [] && FoundAt(s[1..], u, i)
    ensures FoundAt(s, u, i + 1)
  {
    assert s[1..][i..] == s[i + 1..] && s[1..][i..i + |u|] == s[i + 1..i + 1 + |u|];
  }

  lemma FoundHere(s: Text)
    requires UrlStarts(s)
    ensures FoundAt(s, s[..WordLength(s)], 0)
  {
    assert s[0..] == s;
  }

  /** The URL found is the leftmost. */
  lemma {:induction false} FindsLeftmost(s: Text) returns (i: nat)
    ensures FindUrl(s).Some? ==> FoundAt(s, FindUrl(s).value, i)
    ensures forall k :: 0 <= k < |s| && (FindUrl(s).None? || k < i) ==> !UrlStarts(s[k..])
  {
    i := 0;
    if s != [] {
      assert s[0..] == s;
      if UrlStarts(s) {
        FoundHere(s);
      } else {
        var rest := FindsLeftmost(s[1..]);
        if FindUrl(s).Some? {
          FoundShift(s, FindUrl(s).value, rest);
        }
        i := rest + 1;
        forall k | 0 <= k < |s| && (FindUrl(s).None? || k < i) ensures !UrlStarts(s[k..]) {
          assert k > 0 ==> s[1..][k - 1..] == s[k..];
        }
      }
    }
  }

  // ----- Base64 -----

  /** At least one character of the alphabet, then nothing but padding. */
  ghost predicate IsBase64(s: Text) {
    exists n :: 0 < n <= |s| && BodyAndPadding(s, n)
  }

  ghost predicate BodyAndPadding(s: Text, n: int)
    requires 0 <= n <= |s|
  {
    (forall i :: 0 <= i < n ==> IsBase64Char(s[i])) && forall i :: n <= i < |s| ==> Is(s[i], '=')
  }

  lemma {:induction false} PaddingGoes(s: Text)
    ensures var n := |WithoutPadding(s)|;
            && n <= |s| && WithoutPadding(s) == s[..n] && (forall i :: n <= i < |s| ==> Is(s[i], '='))
            && (n > 0 ==> !Is(s[n - 1], '='))
  {
    if s != [] && s[|s| - 1] == 0x3d {
      PaddingGoes(s[..|s| - 1]);
    }
  }

  lemma ShapedIff(s: Text)
    ensures Base64Shaped(s) <==> IsBase64(s)
  {
    var m := |WithoutPadding(s)|;
    PaddingGoes(s);
    if Base64Shaped(s) {
      assert BodyAndPadding(s, m);
    }
    if IsBase64(s) {
      var n :| 0 < n <= |s| && BodyAndPadding(s, n);
      assert IsBase64Char(s[n - 1]);
      assert n == m;
    }
  }

  /** The head for a payload, by the signature it starts with; what has none is taken for SVG if it looks like it,
      else for PNG. */
  ghost predicate IsHeadFor(h: Text, b64: Text, looksSvg: Text -> bool) {
    if Ascii("iVBOR") <= b64 then h == Ascii("data:image/png;base64,")
    else if Ascii("/9j/") <= b64 then h == Ascii("data:image/jpeg;base64,")
    else if Ascii("R0lGOD") <= b64 then h == Ascii("data:image/gif;base64,")
    else if Ascii("UklGR") <= b64 then h == Ascii("data:image/webp;base64,")
    else if looksSvg(b64) then h == Ascii("data:image/svg+xml;base64,")
    else h == Ascii("data:image/png;base64,")
  }

  lemma SignaturesSpell()
    ensures Ascii("iVBOR") == [0x69, 0x56, 0x42, 0x4f, 0x52] && Ascii("/9j/") == [0x2f, 0x39, 0x6a, 0x2f]
    ensures Ascii("R0lGOD") == [0x52, 0x30, 0x6c, 0x47, 0x4f, 0x44] && Ascii("UklGR") == [0x55, 0x6b, 0x6c, 0x47, 0x52]
  {
  }

  lemma HeadIs(b64: Text, looksSvg: Text -> bool)
    ensures IsHeadFor(Head(b64, looksSvg), b64, looksSvg)
  {
    SignaturesSpell();
    PngSpells();
    JpegSpells();
    GifSpells();
    WebpSpells();
    SvgSpells();
  }

  ghost predicate HasColon(s: Text) {
    exists i :: 0 <= i < |s| && Is(s[i], ':')
  }

  lemma NoColonNoScheme(t: Text)
    requires !HasColon(t)
    ensures CollapseIpfs(t) == t && !IsUsable(t)
  {
    assert IPFS[4] == HTTP[4] == COLON && HTTPS[5] == COLON && DATA[4] == COLON;
    if IPFS <= t || HTTP <= t || DATA <= t {
      assert Is(t[4], ':');
    }
    if HTTPS <= t {
      assert Is(t[5], ':');
    }
  }

  /** A field without a colon that is not an even number of hex digits becomes a data URL, its whitespace removed, if
      what is left is base64 of at least 32 characters, and nothing otherwise. */
  lemma Base64Result(raw: Text, utf8: Decoder, looksSvg: Text -> bool)
    requires !HasColon(Trim(raw)) && Trim(raw) != []
    requires !(|Trim(raw)| % 2 == 0 && AllHex(Trim(raw)))
    ensures var b64, r := RemoveSpace(Trim(raw)), NormalizeText(raw, utf8, looksSvg);
            if IsBase64(b64) && |b64| >= 32
            then r.Some? && exists h :: IsHeadFor(h, b64, looksSvg) && r.value == h + b64
            else r.None?
  {
    var t := Trim(raw);
    NoColonNoScheme(t);
    ShapedIff(RemoveSpace(t));
    HeadIs(RemoveSpace(t), looksSvg);
  }

  lemma {:induction false} ColonStays(s: Text)
    requires HasColon(s)
    ensures HasColon(RemoveSpace(s))
  {
    var i :| 0 <= i < |s| && Is(s[i], ':');
    if i == 0 {
      assert Is(RemoveSpace(s)[0], ':');
    } else {
      assert Is(s[1..][i - 1], ':');
      ColonStays(s[1..]);
      var k :| 0 <= k < |RemoveSpace(s[1..])| && Is(RemoveSpace(s[1..])[k], ':');
      assert Is(RemoveSpace(s)[if IsSpace(s[0]) then k else k + 1], ':');
    }
  }

  /** A field with a colon that starts with none of the four schemes gives nothing, and neither does a blank one. */
  lemma OtherTextIsDropped(raw: Text, utf8: Decoder, looksSvg: Text -> bool)
    requires HasColon(Trim(raw)) || Trim(raw) == []
    requires !(IPFS <= Trim(raw)) && !(HTTP <= Trim(raw)) && !(HTTPS <= Trim(raw)) && !(DATA <= Trim(raw))
    ensures NormalizeText(raw, utf8, looksSvg).None?
  {
    var t := Trim(raw);
    if t != [] {
      var i :| 0 <= i < |t| && Is(t[i], ':');
      assert !IsHexDigit(t[i]);
      ColonStays(t);
      var b64 := RemoveSpace(t);
      var k :| 0 <= k < |b64| && Is(b64[k], ':');
      PaddingKeepsColon(b64, k);
    }
  }
}
