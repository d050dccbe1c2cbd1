/** `data:` URLs as in RFC 2397: `data:<mediatype>;base64,<data>`, the form
    in which an uploaded image is handed to the identification model. */
module DataUrl {
  import opened Wrappers
  import opened Text
  import opened Base64

  const DefaultMime: string := "image/png"
  const Scheme: string := "data:"
  const Base64Marker: string := ";base64,"

  /** The URL that carries `b`, base64-encoded, with media type `mime`. */
  function BytesToDataUrl(b: seq<byte>, mime: string := DefaultMime): (u: string)
    ensures StartsWith(u, Scheme + mime + Base64Marker)
    ensures u[|Scheme + mime + Base64Marker|..] == Encode(b)
    ensures |u| == |Scheme| + |mime| + |Base64Marker| + (|b| + 2) / 3 * 4
  {
    Scheme + mime + Base64Marker + Encode(b)
  }

  /** The position of the last `c` in `s`. */
  function LastIndexOf(s: string, c: char): (r: Option<nat>)
    ensures r.Some? ==> r.value < |s| && s[r.value] == c
                        && forall j :: r.value < j < |s| ==> s[j] != c
    ensures r.None? ==> forall j :: 0 <= j < |s| ==> s[j] != c
  {
    if s == [] then None
    else if s[|s| - 1] == c then Some(|s| - 1)
    else LastIndexOf(s[..|s| - 1], c)
  }

  datatype DataUrlParts = DataUrlParts(mime: string, bytes: seq<byte>)

  /** Reads back a URL of the form `BytesToDataUrl` writes. Base64 text holds
      no comma, so the data starts after the last comma, and the media type
      may itself hold commas. */
  function ParseDataUrl(u: string): Option<DataUrlParts> {
    if !StartsWith(u, Scheme) then None
    else match LastIndexOf(u, ',')
      case None => None
      case Some(k) =>
        if k < |Scheme| + |Base64Marker| - 1 || u[k - 7..k] != ";base64" then None
        else match Decode(u[k + 1..])
          case None => None
          case Some(bytes) => Some(DataUrlParts(u[|Scheme|..k - 7], bytes))
  }

  /** The media type and the bytes are recovered from the URL. */
  lemma ParseBuilt(b: seq<byte>, mime: string)
    ensures ParseDataUrl(BytesToDataUrl(b, mime)) == Some(DataUrlParts(mime, b))
  {
    BuiltPieces(b, mime);
    BuiltLastComma(b, mime);
    DecodeEncode(b);
  }

  /** Where the pieces of a built URL sit, `k` being the position of its comma. */
  lemma BuiltPieces(b: seq<byte>, mime: string)
    ensures var u, k := BytesToDataUrl(b, mime), |Scheme| + |mime| + |Base64Marker| - 1;
            && StartsWith(u, Scheme) && u[k] == ','
            && u[k - 7..k] == ";base64" && u[k + 1..] == Encode(b) && u[|Scheme|..k - 7] == mime
  {
    var p := Scheme + mime + Base64Marker;
    var u := p + Encode(b);
    var k := |p| - 1;
    assert u[k - 7..k] == ";base64" by {
      assert u[k - 7..k] == p[k - 7..k];
    }
    assert u[|Scheme|..k - 7] == mime by {
      assert u[|Scheme|..k - 7] == p[|Scheme|..k - 7];
    }
  }

  lemma BuiltLastComma(b: seq<byte>, mime: string)
    ensures LastIndexOf(BytesToDataUrl(b, mime), ',') == Some(|Scheme| + |mime| + |Base64Marker| - 1)
  {
    EncodeHasNoComma(b);
    LastCommaBefore(Scheme + mime + Base64Marker, Encode(b));
  }

  /** The last comma of `a + e` is the one ending `a` when `e` has none. */
  lemma {:induction false} LastCommaBefore(a: string, e: string)
    requires |a| > 0 && a[|a| - 1] == ','
    requires forall j :: 0 <= j < |e| ==> e[j] != ','
    ensures LastIndexOf(a + e, ',') == Some(|a| - 1)
    decreases |e|
  {
    if e == [] {
      assert a + e == a;
    } else {
      var e' := e[..|e| - 1];
      assert (a + e)[..|a + e| - 1] == a + e';
      LastCommaBefore(a, e');
    }
  }

  /** Every URL that parses is the one built from its parts. */
  lemma BuiltFromParts(u: string)
    requires ParseDataUrl(u).Some?
    ensures BytesToDataUrl(ParseDataUrl(u).value.bytes, ParseDataUrl(u).value.mime) == u
  {
    var k := LastIndexOf(u, ',').value;
    var p := ParseDataUrl(u).value;
    assert p.mime == u[|Scheme|..k - 7];
    assert Decode(u[k + 1..]) == Some(p.bytes);
    EncodeDecode(u[k + 1..]);
    assert u[..|Scheme|] == Scheme;
    assert u[k - 7..k + 1] == Base64Marker by {
      assert u[k - 7..k + 1] == u[k - 7..k] + [u[k]];
    }
    SplitFour(u, |Scheme|, k - 7, k + 1);
  }

  lemma SplitFour(u: string, i: nat, j: nat, k: nat)
    requires i <= j <= k <= |u|
    ensures u == u[..i] + u[i..j] + u[j..k] + u[k..]
  {
  }
}
