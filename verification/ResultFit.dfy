/**
 Cutting an open result to the size an open submission holds: the binary search over the
 output's code points, with sizes counted as JSON.stringify and UTF-8 make them.
 */
module ResultFit {
  /** A code point as Array.from gives it; a lone surrogate is one. */
  type CodePoint = c: nat | c < 0x110000

  predicate IsSurrogate(c: CodePoint) { 0xD800 <= c <= 0xDFFF }

  /** The bytes one code point takes inside a JSON string (RFC 8259 section 7) in UTF-8. */
  function EncodedBytes(c: CodePoint): (n: nat)
    ensures 1 <= n <= 6
  {
    if c == 0x22 || c == 0x5C then 2                                              // \" and \\
    else if c == 0x08 || c == 0x09 || c == 0x0A || c == 0x0C || c == 0x0D then 2  // \b \t \n \f \r
    else if c < 0x20 then 6                                                       // \u00XX
    else if c < 0x80 then 1
    else if c < 0x800 then 2
    else if IsSurrogate(c) then 6                                                 // \uDXXX
    else if c < 0x10000 then 3
    else 4
  }

  // ---- The bytes themselves -------------------------------------------------------------------

  function HexDigit(n: nat): CodePoint
    requires n < 16
  {
    if n < 10 then 0x30 + n else 0x61 + n - 10
  }

  /** What JSON.stringify writes for a code point: itself, or an escape, of two characters where there is one. */
  function Escaped(c: CodePoint): seq<CodePoint> {
    if c == 0x22 || c == 0x5C then [0x5C, c]
    else if c == 0x08 then [0x5C, 0x62]
    else if c == 0x09 then [0x5C, 0x74]
    else if c == 0x0A then [0x5C, 0x6E]
    else if c == 0x0C then [0x5C, 0x66]
    else if c == 0x0D then [0x5C, 0x72]
    else if c < 0x20 || IsSurrogate(c) then
      [0x5C, 0x75, HexDigit(c / 0x1000 % 16), HexDigit(c / 0x100 % 16), HexDigit(c / 0x10 % 16), HexDigit(c % 16)]
    else [c]
  }

  /** UTF-8, section 3 of RFC 3629. */
  function Utf8(c: CodePoint): seq<nat> {
    if c < 0x80 then [c]
    else if c < 0x800 then [0xC0 + c / 0x40, 0x80 + c % 0x40]
    else if c < 0x10000 then [0xE0 + c / 0x1000, 0x80 + c / 0x40 % 0x40, 0x80 + c % 0x40]
    else [0xF0 + c / 0x40000, 0x80 + c / 0x1000 % 0x40, 0x80 + c / 0x40 % 0x40, 0x80 + c % 0x40]
  }

  /** What each element is written as, one after the other. */
  function Written<T>(s: seq<CodePoint>, how: CodePoint -> seq<T>): seq<T> {
    if s == [] then [] else Written(s[..|s| - 1], how) + how(s[|s| - 1])
  }

  function Utf8Of(s: seq<CodePoint>): seq<nat> { Written(s, Utf8) }

  function EscapedText(s: seq<CodePoint>): seq<CodePoint> { Written(s, Escaped) }

  lemma {:induction false} WrittenInTurn<T>(a: seq<CodePoint>, b: seq<CodePoint>, how: CodePoint -> seq<T>)
    ensures Written(a + b, how) == Written(a, how) + Written(b, how)
  {
    if b == [] {
      assert a + b == a;
    } else {
      WrittenInTurn(a, b[..|b| - 1], how);
      assert (a + b)[..|a + b| - 1] == a + b[..|b| - 1];
    }
  }

  lemma {:induction false} AsciiIsOneByteEach(s: seq<CodePoint>)
    requires forall i :: 0 <= i < |s| ==> s[i] < 0x80
    ensures |Utf8Of(s)| == |s|
  {
    if s == [] {
    } else {
      AsciiIsOneByteEach(s[..|s| - 1]);
    }
  }

  /** Nothing a JSON string may not hold as it is, and a code point that UTF-8 has: an escape is all ASCII. */
  lemma EscapedIsWritable(c: CodePoint)
    ensures forall k :: 0 <= k < |Escaped(c)| ==> Escaped(c)[k] >= 0x20 && !IsSurrogate(Escaped(c)[k])
    ensures Escaped(c) != [c] ==> forall k :: 0 <= k < |Escaped(c)| ==> Escaped(c)[k] < 0x80
    ensures |Utf8Of(Escaped(c))| == EncodedBytes(c)
  {
    if Escaped(c) == [c] {
      assert [c][..0] == [];
      assert Written([c], Utf8) == Written([], Utf8) + Utf8(c);
    } else {
      AsciiIsOneByteEach(Escaped(c));
    }
  }

  /** The size counted is that of the text as JSON.stringify and UTF-8 make it. */
  lemma {:induction false} TextBytesAreTheBytes(s: seq<CodePoint>)
    ensures TextBytes(s) == |Utf8Of(EscapedText(s))|
  {
    if s == [] {
    } else {
      var last := |s| - 1;
      TextBytesAreTheBytes(s[..last]);
      EscapedIsWritable(s[last]);
      WrittenInTurn(EscapedText(s[..last]), Escaped(s[last]), Utf8);
    }
  }

  function TextBytes(s: seq<CodePoint>): nat {
    if s == [] then 0 else TextBytes(s[..|s| - 1]) + EncodedBytes(s[|s| - 1])
  }

  /** The bytes of `,"truncated":true`. */
  const TRUNCATED_FIELD: nat := 17

  /** A result: its output, whether it says it was cut, and the bytes of everything else in its JSON. */
  datatype ResultData = ResultData(output: seq<CodePoint>, truncated: bool, otherBytes: nat)

  function Size(r: ResultData): nat {
    r.otherBytes + TextBytes(r.output) + (if r.truncated then TRUNCATED_FIELD else 0)
  }

  function Cut(r: ResultData, n: nat, note: seq<CodePoint>): ResultData
    requires n <= |r.output|
  {
    r.(output := r.output[..n] + note, truncated := true)
  }

  lemma {:induction false} TextBytesOfConcat(a: seq<CodePoint>, b: seq<CodePoint>)
    ensures TextBytes(a + b) == TextBytes(a) + TextBytes(b)
  {
    if b == [] {
      assert a + b == a;
    } else {
      TextBytesOfConcat(a, b[..|b| - 1]);
      assert (a + b)[..|a + b| - 1] == a + b[..|b| - 1];
    }
  }

  /** Keeping more of the output never makes the cut smaller, and each code point counts. */
  lemma CutSizeGrows(r: ResultData, m: nat, n: nat, note: seq<CodePoint>)
    requires m < n <= |r.output|
    ensures Size(Cut(r, m, note)) < Size(Cut(r, n, note))
  {
    TextBytesOfConcat(r.output[..m], note);
    TextBytesOfConcat(r.output[..n], note);
    assert r.output[..n] == r.output[..m] + r.output[m..n];
    TextBytesOfConcat(r.output[..m], r.output[m..n]);
    assert TextBytes(r.output[m..n]) >= 1;
  }

  /** A result that did not fit cannot keep its whole output once the note is added. */
  lemma WholeOutputNeverFits(r: ResultData, note: seq<CodePoint>, maxBytes: nat)
    requires Size(r) > maxBytes
    ensures Size(Cut(r, |r.output|, note)) > maxBytes
  {
    TextBytesOfConcat(r.output, note);
    assert r.output[..|r.output|] == r.output;
  }

  /**
   A result that fits is kept as it is. Otherwise, when the note alone fits, the output is
   cut at the longest prefix that leaves the whole within the cap: one code point more would
   exceed it. When not even the note fits, the note alone is sent.
   */
  method FitOpenResultData(r: ResultData, note: seq<CodePoint>, maxBytes: nat) returns (fit: ResultData, kept: nat)
    ensures Size(r) <= maxBytes ==> fit == r
    ensures Size(r) > maxBytes ==> kept <= |r.output| && fit == Cut(r, kept, note)
    ensures Size(r) > maxBytes && Size(Cut(r, 0, note)) <= maxBytes
            ==> && Size(fit) <= maxBytes
                && kept < |r.output|
                && forall n :: kept < n <= |r.output| ==> Size(Cut(r, n, note)) > maxBytes
    ensures Size(r) > maxBytes && Size(Cut(r, 0, note)) > maxBytes ==> kept == 0
  {
    kept := 0;
    if Size(r) <= maxBytes {
      return r, kept;
    }
    WholeOutputNeverFits(r, note, maxBytes);
    var lo, hi := 0, |r.output|;
    while lo < hi
      invariant 0 <= lo <= hi <= |r.output|
      invariant lo > 0 ==> Size(Cut(r, lo, note)) <= maxBytes
      invariant forall n :: hi < n <= |r.output| ==> Size(Cut(r, n, note)) > maxBytes
    {
      var mid := (lo + hi + 1) / 2;
      if Size(Cut(r, mid, note)) <= maxBytes {
        lo := mid;
      } else {
        forall n | mid < n <= |r.output|
          ensures Size(Cut(r, n, note)) > maxBytes
        {
          CutSizeGrows(r, mid, n, note);
        }
        hi := mid - 1;
      }
    }
    kept := lo;
    fit := Cut(r, lo, note);
    if lo > 0 {
      CutSizeGrows(r, 0, lo, note);
    }
  }
}
