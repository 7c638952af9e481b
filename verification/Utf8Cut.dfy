/**
 The two loops that cut UTF-8 text at a byte limit without splitting a character:
 the one for batch diffs and the one for extracted PDF text. Text is its UTF-8
 encoding (RFC 3629, section 3) of a sequence of code points.
 */
module Utf8Cut {
  import opened Common

  const MAX_PATCH_BYTES: nat := 200_000
  const PDF_TEXT_INJECT_LIMIT: nat := 50 * 1024

  type Byte = b: int | 0 <= b < 256

  /** A Unicode scalar value. */
  type CodePoint = c: int | 0 <= c < 0xD800 || 0xE000 <= c < 0x11_0000

  // ---- Encoding ----------------------------------------------------------

  predicate IsContinuation(b: Byte) {
    0x80 <= b < 0xC0
  }

  function EncodeOne(c: CodePoint): (e: seq<Byte>)
    ensures 1 <= |e| <= 4
    ensures !IsContinuation(e[0])
    ensures forall i :: 1 <= i < |e| ==> IsContinuation(e[i])
  {
    if c < 0x80 then [c]
    else if c < 0x800 then [0xC0 + c / 0x40, 0x80 + c % 0x40]
    else if c < 0x1_0000 then [0xE0 + c / 0x1000, 0x80 + c / 0x40 % 0x40, 0x80 + c % 0x40]
    else [0xF0 + c / 0x4_0000, 0x80 + c / 0x1000 % 0x40, 0x80 + c / 0x40 % 0x40, 0x80 + c % 0x40]
  }

  function Bits(b: int, lead: int): int {
    b - lead
  }

  /** Taking off six bits at a time. */
  lemma SixBits(c: nat)
    ensures c == c / 0x40 * 64 + c % 0x40
    ensures c / 0x1000 == c / 0x40 / 0x40 && c / 0x4_0000 == c / 0x1000 / 0x40
  {
  }

  /** The bytes of a code point carry its bits under the lead of their number (RFC 3629, section 3). */
  lemma EncodedReadsBack(c: CodePoint)
    ensures
      var e := EncodeOne(c);
      && (|e| == 1 <==> c <= 0x7F) && (|e| <= 2 <==> c <= 0x7FF) && (|e| <= 3 <==> c <= 0xFFFF)
      && match |e| {
           case 1 => e[0] == c
           case 2 => e[0] >= 0xC0 && c == Bits(e[0], 0xC0) * 64 + Bits(e[1], 0x80)
           case 3 => e[0] >= 0xE0 && c == (Bits(e[0], 0xE0) * 64 + Bits(e[1], 0x80)) * 64 + Bits(e[2], 0x80)
           case _ => e[0] >= 0xF0 && c == ((Bits(e[0], 0xF0) * 64 + Bits(e[1], 0x80)) * 64 + Bits(e[2], 0x80)) * 64 + Bits(e[3], 0x80)
         }
  {
    SixBits(c);
    SixBits(c / 0x40);
    SixBits(c / 0x1000);
  }

  function Encode(text: seq<CodePoint>): seq<Byte> {
    if text == [] then [] else EncodeOne(text[0]) + Encode(text[1..])
  }

  lemma {:induction false} EncodeConcat(a: seq<CodePoint>, b: seq<CodePoint>)
    ensures Encode(a + b) == Encode(a) + Encode(b)
  {
    if a == [] {
      assert a + b == b;
    } else {
      assert (a + b)[1..] == a[1..] + b;
      EncodeConcat(a[1..], b);
    }
  }

  // ---- Character boundaries -----------------------------------------------

  /** `str::is_char_boundary`: the ends, and every position whose byte is not a continuation byte. */
  predicate IsCharBoundary(bytes: seq<Byte>, i: nat) {
    i == 0 || i == |bytes| || (i < |bytes| && !IsContinuation(bytes[i]))
  }

  lemma {:induction false} BoundarySplits(text: seq<CodePoint>, i: nat) returns (k: nat)
    requires i <= |Encode(text)| && IsCharBoundary(Encode(text), i)
    ensures k <= |text| && |Encode(text[..k])| == i && Encode(text[..k]) == Encode(text)[..i]
    decreases |text|
  {
    if i == 0 {
      k := 0;
    } else {
      var first := EncodeOne(text[0]);
      var rest := Encode(text[1..]);
      assert Encode(text) == first + rest;
      assert forall j :: 0 < j < |first| ==> Encode(text)[j] == first[j];
      assert i >= |first|;
      if i < |Encode(text)| { assert Encode(text)[i] == rest[i - |first|]; }
      assert IsCharBoundary(rest, i - |first|) by {
        if i - |first| == 0 {} else if i < |Encode(text)| {}
      }
      var j := BoundarySplits(text[1..], i - |first|);
      k := j + 1;
      assert text[..k] == [text[0]] + text[1..][..j];
      assert text[..k][1..] == text[1..][..j];
    }
  }

  lemma SplitIsBoundary(text: seq<CodePoint>, k: nat)
    requires k <= |text|
    ensures |Encode(text[..k])| <= |Encode(text)|
    ensures Encode(text)[..|Encode(text[..k])|] == Encode(text[..k])
    ensures IsCharBoundary(Encode(text), |Encode(text[..k])|)
  {
    assert text == text[..k] + text[k..];
    EncodeConcat(text[..k], text[k..]);
    if k < |text| {
      assert Encode(text)[|Encode(text[..k])|] == EncodeOne(text[k])[0];
    }
  }

  ghost predicate BoundaryNear(bytes: seq<Byte>, i: nat) {
    exists at :: i - 3 <= at <= i && 0 <= at && IsCharBoundary(bytes, at)
  }

  /** Boundaries are never more than three bytes apart from the limit: one of any four consecutive positions is one. */
  lemma {:induction false} BoundaryWithinThree(text: seq<CodePoint>, i: nat)
    requires i <= |Encode(text)|
    ensures BoundaryNear(Encode(text), i)
    decreases |text|
  {
    var bytes := Encode(text);
    if text == [] || i == 0 {
      assert IsCharBoundary(bytes, i);
    } else {
      var first := EncodeOne(text[0]);
      var rest := Encode(text[1..]);
      assert bytes == first + rest;
      if i < |first| {
        assert IsCharBoundary(bytes, 0);
      } else {
        BoundaryWithinThree(text[1..], i - |first|);
        var at :| i - |first| - 3 <= at <= i - |first| && 0 <= at && IsCharBoundary(rest, at);
        if at == 0 && rest != [] {
          assert text[1..] != [];
          assert rest[0] == EncodeOne(text[1..][0])[0];
        }
        if at < |rest| { assert bytes[at + |first|] == rest[at]; }
        assert IsCharBoundary(bytes, at + |first|);
      }
    }
  }

  // ---- The longest whole prefix -------------------------------------------

  /** `end` is where the longest prefix of whole characters of at most `limit` bytes ends. */
  ghost predicate IsLongestPrefix(text: seq<CodePoint>, limit: nat, end: nat) {
    && end <= limit && end <= |Encode(text)|
    && (exists k :: 0 <= k <= |text| && Encode(text[..k]) == Encode(text)[..end])
    && (forall k :: 0 <= k <= |text| && |Encode(text[..k])| <= limit ==> |Encode(text[..k])| <= end)
  }

  /** The last boundary at or below the limit ends the longest whole prefix, and at most three bytes are given up. */
  lemma LastBoundaryIsLongest(text: seq<CodePoint>, limit: nat, end: nat)
    requires end <= limit && end <= |Encode(text)| && IsCharBoundary(Encode(text), end)
    requires forall i :: end < i <= limit && i <= |Encode(text)| ==> !IsCharBoundary(Encode(text), i)
    ensures IsLongestPrefix(text, limit, end)
    ensures |Encode(text)| > limit ==> limit - end <= 3
    ensures |Encode(text)| <= limit ==> end == |Encode(text)|
  {
    var k := BoundarySplits(text, end);
    assert Encode(text[..k]) == Encode(text)[..end];
    forall j | 0 <= j <= |text| && |Encode(text[..j])| <= limit
      ensures |Encode(text[..j])| <= end
    {
      SplitIsBoundary(text, j);
    }
    assert IsCharBoundary(Encode(text), |Encode(text)|);
    if |Encode(text)| > limit {
      BoundaryWithinThree(text, limit);
      var at :| limit - 3 <= at <= limit && 0 <= at && IsCharBoundary(Encode(text), at);
      assert at <= end;
    }
  }

  datatype Cut = Cut(bytes: seq<Byte>, truncated: bool)

  /** The cut of `branch_patch_sync`: a patch within the limit is returned whole, a longer one is cut at a boundary. */
  method CutPatch(text: seq<CodePoint>) returns (r: Cut)
    ensures r.truncated <==> |Encode(text)| > 200_000
    ensures r.bytes <= Encode(text) && IsLongestPrefix(text, 200_000, |r.bytes|)
    ensures !r.truncated ==> r.bytes == Encode(text)
    ensures r.truncated ==> 200_000 - 3 <= |r.bytes| <= 200_000
  {
    var patch := Encode(text);
    if |patch| > MAX_PATCH_BYTES {
      var cut := MAX_PATCH_BYTES;
      while !IsCharBoundary(patch, cut)
        invariant 0 <= cut <= MAX_PATCH_BYTES
        invariant forall i :: cut < i <= MAX_PATCH_BYTES ==> !IsCharBoundary(patch, i)
        decreases cut
      {
        cut := cut - 1;
      }
      LastBoundaryIsLongest(text, MAX_PATCH_BYTES, cut);
      return Cut(patch[..cut], true);
    }
    LastBoundaryIsLongest(text, MAX_PATCH_BYTES, |patch|);
    assert patch[..|patch|] == patch;
    r := Cut(patch, false);
  }

  /** The cut of `pdf_extraction_outcome`, one loop for short and long text alike: it starts at the limit even past the end. */
  method CutPdfText(text: seq<CodePoint>) returns (r: Cut)
    ensures r.truncated <==> |Encode(text)| > 51_200
    ensures r.bytes <= Encode(text) && IsLongestPrefix(text, 51_200, |r.bytes|)
    ensures !r.truncated ==> r.bytes == Encode(text)
    ensures r.truncated ==> 51_200 - 3 <= |r.bytes| <= 51_200
  {
    var trimmed := Encode(text);
    var truncated := |trimmed| > PDF_TEXT_INJECT_LIMIT;
    var end := PDF_TEXT_INJECT_LIMIT;
    while !IsCharBoundary(trimmed, end) && end > 0
      invariant 0 <= end <= PDF_TEXT_INJECT_LIMIT
      invariant forall i :: end < i <= PDF_TEXT_INJECT_LIMIT ==> !IsCharBoundary(trimmed, i)
    {
      end := end - 1;
    }
    assert end <= |trimmed|;
    LastBoundaryIsLongest(text, PDF_TEXT_INJECT_LIMIT, end);
    r := Cut(trimmed[..end], truncated);
  }
}
