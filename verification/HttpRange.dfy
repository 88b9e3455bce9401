/** Content-Range checking and the chunk download built on it (engine/source/range.rs and
    `fetch_chunk` in engine/source/segmented.rs; the header grammar is section 14.4 of RFC 9110). */
module HttpRange {

  import opened Common

  const U64_LIMIT: int := 0x1_0000_0000_0000_0000
  const PARTIAL_CONTENT := 206

  // ---------------------------------------------------------------- decimal numbers

  predicate IsDigit(c: char) { '0' <= c <= '9' }

  predicate AllDigits(s: string) { forall i :: 0 <= i < |s| ==> IsDigit(s[i]) }

  function DigitValue(c: char): (d: int)
    requires IsDigit(c)
    ensures 0 <= d <= 9
  {
    (c as int) - ('0' as int)
  }

  function DigitsValue(s: string): (v: int)
    requires AllDigits(s)
    ensures v >= 0
  {
    if s == "" then 0 else DigitsValue(s[..|s| - 1]) * 10 + DigitValue(s[|s| - 1])
  }

  /** `str::parse::<u64>`: one optional leading '+', at least one digit, no overflow. */
  function ParseU64(s: string): Option<int> {
    var digits := if |s| > 1 && s[0] == '+' then s[1..] else s;
    if digits != "" && AllDigits(digits) && DigitsValue(digits) < U64_LIMIT
    then Some(DigitsValue(digits)) else None
  }

  function DigitChar(d: int): (c: char)
    requires 0 <= d <= 9
    ensures IsDigit(c) && DigitValue(c) == d
  {
    ('0' as int + d) as char
  }

  /** The usual decimal numeral of `n`. */
  function Decimal(n: nat): (s: string)
    ensures s != "" && AllDigits(s)
  {
    if n < 10 then [DigitChar(n)] else Decimal(n / 10) + [DigitChar(n % 10)]
  }

  lemma {:induction false} DecimalValue(n: nat)
    ensures DigitsValue(Decimal(n)) == n
  {
    var s := Decimal(n);
    if n < 10 {
      assert s[..0] == "";
    } else {
      DecimalValue(n / 10);
      assert s[..|s| - 1] == Decimal(n / 10);
    }
  }

  function Zeros(k: nat): (s: string)
    ensures |s| == k && AllDigits(s) && forall i :: 0 <= i < k ==> s[i] == '0'
  {
    seq(k, _ => '0')
  }

  /** A numeral of `n`: an optional plus sign, any number of zeros, then the usual digits. */
  ghost predicate IsNumeral(s: string, n: int) {
    n >= 0 && exists plus: bool, zeros: nat :: s == Numeral(plus, zeros, n)
  }

  function Numeral(plus: bool, zeros: nat, n: nat): string { (if plus then "+" else "") + (Zeros(zeros) + Decimal(n)) }

  lemma {:induction false} ZerosValue(k: nat, s: string)
    requires AllDigits(s)
    ensures AllDigits(Zeros(k) + s) && DigitsValue(Zeros(k) + s) == DigitsValue(s)
    decreases |s| + k
  {
    var t := Zeros(k) + s;
    if s != "" {
      ZerosValue(k, s[..|s| - 1]);
      assert t[..|t| - 1] == Zeros(k) + s[..|s| - 1];
    } else if k > 0 {
      ZerosValue(k - 1, "");
      assert t[..|t| - 1] == Zeros(k - 1) + "";
    }
  }

  /** Every string of digits is zeros and the usual numeral of its value. */
  lemma {:induction false} DigitsAreNumeral(s: string) returns (zeros: nat)
    requires s != "" && AllDigits(s)
    ensures s == Zeros(zeros) + Decimal(DigitsValue(s))
  {
    var n := |s| - 1;
    var front, d := s[..n], DigitValue(s[n]);
    assert s == front + [DigitChar(d)];
    if front == "" {
      zeros := 0;
      assert DigitsValue(front) == 0;
    } else {
      var k := DigitsAreNumeral(front);
      var v := DigitsValue(front);
      if v == 0 {
        zeros := k + 1;
        assert Decimal(0) == "0" && front == Zeros(k + 1);
      } else {
        zeros := k;
        assert (10 * v + d) / 10 == v && (10 * v + d) % 10 == d;
        assert Decimal(10 * v + d) == Decimal(v) + [DigitChar(d)];
        assert Zeros(k) + (Decimal(v) + [DigitChar(d)]) == (Zeros(k) + Decimal(v)) + [DigitChar(d)];
      }
    }
  }

  lemma NumeralParses(plus: bool, zeros: nat, n: nat)
    requires n < U64_LIMIT
    ensures ParseU64(Numeral(plus, zeros, n)) == Some(n)
  {
    var s, digits := Numeral(plus, zeros, n), Zeros(zeros) + Decimal(n);
    ZerosValue(zeros, Decimal(n));
    DecimalValue(n);
    if plus {
      assert s[0] == '+' && s[1..] == digits;
    } else {
      assert s == digits && IsDigit(digits[0]);
    }
  }

  /** Exactly the numerals below 2^64 parse, to their value. */
  lemma ParseU64Iff(s: string, n: int)
    ensures ParseU64(s) == Some(n) <==> n < U64_LIMIT && IsNumeral(s, n)
  {
    if ParseU64(s) == Some(n) {
      var plus := |s| > 1 && s[0] == '+';
      var zeros := DigitsAreNumeral(if plus then s[1..] else s);
      assert s == Numeral(plus, zeros, n);
    }
    if n < U64_LIMIT && IsNumeral(s, n) {
      var plus: bool, zeros: nat :| s == Numeral(plus, zeros, n);
      NumeralParses(plus, zeros, n);
    }
  }

  // ---------------------------------------------------------------- splitting

  function IndexOf(s: string, c: char): (i: nat)
    ensures i <= |s| && (forall j :: 0 <= j < i ==> s[j] != c) && (i < |s| ==> s[i] == c)
  {
    if s == "" || s[0] == c then 0 else 1 + IndexOf(s[1..], c)
  }

  /** `str::split_once`: split at the first occurrence of `c`. */
  function SplitOnce(s: string, c: char): Option<(string, string)> {
    var i := IndexOf(s, c);
    if i < |s| then Some((s[..i], s[i + 1..])) else None
  }

  lemma SplitOnceAt(a: string, c: char, b: string)
    requires c !in a
    ensures SplitOnce(a + [c] + b, c) == Some((a, b))
  {
    var s := a + [c] + b;
    var i := IndexOf(s, c);
    assert s[|a|] == c;
    assert forall j :: 0 <= j < |a| ==> s[j] == a[j];
    assert s[..|a|] == a && s[|a| + 1..] == b;
  }

  lemma SplitOnceParts(s: string, c: char)
    requires SplitOnce(s, c).Some?
    ensures var (a, b) := SplitOnce(s, c).value; s == a + [c] + b
  {
  }

  // ---------------------------------------------------------------- Content-Range

  datatype ContentRange = ContentRange(start: int, end: int, total: Option<int>)

  function ParseTotal(s: string): Option<Option<int>> {
    if s == "*" then Some(None)
    else match ParseU64(s) case Some(t) => Some(Some(t)) case None => None
  }

  function ParseContentRange(header: string): Option<ContentRange> {
    var (unit, interval) :- SplitOnce(header, ' ');
    if unit != "bytes" then None
    else
      var (span, totalText) :- SplitOnce(interval, '/');
      var (startText, endText) :- SplitOnce(span, '-');
      var start :- ParseU64(startText);
      var end :- ParseU64(endText);
      var total :- ParseTotal(totalText);
      Some(ContentRange(start, end, total))
  }

  function WriteContentRange(start: string, end: string, total: string): string {
    "bytes" + [' '] + (start + ['-'] + end + ['/'] + total)
  }

  predicate FitsU64(r: ContentRange) {
    && 0 <= r.start < U64_LIMIT
    && 0 <= r.end < U64_LIMIT
    && (r.total.Some? ==> 0 <= r.total.value < U64_LIMIT)
  }

  ghost predicate IsTotal(s: string, total: Option<int>) { if total.Some? then IsNumeral(s, total.value) else s == "*" }

  /** `header` is a way to write the range `r`. */
  ghost predicate Writes(header: string, r: ContentRange) {
    exists start: string, end: string, total: string ::
      && header == WriteContentRange(start, end, total)
      && IsNumeral(start, r.start) && IsNumeral(end, r.end) && IsTotal(total, r.total)
  }

  lemma NumeralChars(s: string, n: int, c: char)
    requires IsNumeral(s, n) && c in s
    ensures c == '+' || IsDigit(c)
  {
    var plus: bool, zeros: nat :| s == Numeral(plus, zeros, n);
    var i :| 0 <= i < |s| && s[i] == c;
    var digits := Zeros(zeros) + Decimal(n);
    assert AllDigits(digits);
    assert plus && i > 0 ==> s[i] == digits[i - 1];
  }

  lemma ParseTotalIff(s: string, total: Option<int>)
    requires total.Some? ==> total.value < U64_LIMIT
    ensures ParseTotal(s) == Some(total) <==> IsTotal(s, total)
  {
    if total.Some? {
      ParseU64Iff(s, total.value);
      if IsNumeral("*", total.value) { NumeralChars("*", total.value, '*'); }
    }
  }

  /** Every way to write a range that fits 64 bits parses to it. */
  lemma ParseInvertsWrite(start: string, end: string, total: string, r: ContentRange)
    requires FitsU64(r) && IsNumeral(start, r.start) && IsNumeral(end, r.end) && IsTotal(total, r.total)
    ensures ParseContentRange(WriteContentRange(start, end, total)) == Some(r)
  {
    var span := start + ['-'] + end;
    SplitOnceAt("bytes", ' ', span + ['/'] + total);
    if '/' in span {
      if '/' in start { NumeralChars(start, r.start, '/'); } else { NumeralChars(end, r.end, '/'); }
    }
    SplitOnceAt(span, '/', total);
    if '-' in start { NumeralChars(start, r.start, '-'); }
    SplitOnceAt(start, '-', end);
    ParseU64Iff(start, r.start);
    ParseU64Iff(end, r.end);
    ParseTotalIff(total, r.total);
  }

  lemma ParseFits(s: string)
    ensures ParseU64(s).Some? ==> 0 <= ParseU64(s).value < U64_LIMIT
  {
  }

  /** A header parses to a range if and only if it is a way to write it and it fits 64 bits. */
  lemma ParseContentRangeIff(header: string, r: ContentRange)
    ensures ParseContentRange(header) == Some(r) <==> FitsU64(r) && Writes(header, r)
  {
    if ParseContentRange(header) == Some(r) {
      SplitOnceParts(header, ' ');
      var interval := SplitOnce(header, ' ').value.1;
      SplitOnceParts(interval, '/');
      var (span, total) := SplitOnce(interval, '/').value;
      SplitOnceParts(span, '-');
      var (start, end) := SplitOnce(span, '-').value;
      ParseFits(start);
      ParseFits(end);
      ParseFits(total);
      ParseU64Iff(start, r.start);
      ParseU64Iff(end, r.end);
      ParseTotalIff(total, r.total);
      assert header == WriteContentRange(start, end, total);
    }
    if FitsU64(r) && Writes(header, r) {
      var start: string, end: string, total: string :|
        && header == WriteContentRange(start, end, total)
        && IsNumeral(start, r.start) && IsNumeral(end, r.end) && IsTotal(total, r.total);
      ParseInvertsWrite(start, end, total, r);
    }
  }

  datatype Response = Response(
    status: int,
    contentRange: Option<string>,
    contentLength: Option<int>,
    /** the body as it streams in ... */
    pieces: seq<seq<Byte>>,
    /** ... and whether it ended cleanly rather than with a transport error */
    ended: bool)

  /** `validate_content_range`: the body length to expect, or None for the InvalidData error. */
  function ValidateContentRange(res: Response, offset: int, length: Option<int>): Option<int> {
    if res.status != PARTIAL_CONTENT then None
    else
      var header :- res.contentRange;
      var r :- ParseContentRange(header);
      if r.end < r.start || r.end - r.start + 1 >= U64_LIMIT then None
      else
        var count := r.end - r.start + 1;
        if r.start != offset
           || (r.total.Some? && r.end >= r.total.value)
           || (length.Some? && length.value != count) then None
        else if res.contentLength.Some? && res.contentLength.value != count then None
        else Some(count)
  }

  /** A range that answers a request for `length` bytes, or any number, from `offset` on. */
  predicate AnswersRange(r: ContentRange, offset: int, length: Option<int>, contentLength: Option<int>) {
    && r.start == offset <= r.end
    && (r.total.Some? ==> r.end < r.total.value)
    && (length.Some? ==> r.end == offset + length.value - 1)
    && (contentLength.Some? ==> r.end == offset + contentLength.value - 1)
    && r.end - r.start < 0xFFFF_FFFF_FFFF_FFFF
  }

  /** A response is accepted if and only if it is a partial one whose header writes a range that starts at `offset`,
      is not empty, lies inside the resource, and has the requested and the declared length. */
  lemma ValidatesExactly(res: Response, offset: int, length: Option<int>)
    ensures ValidateContentRange(res, offset, length).Some? <==>
            && res.status == 206 && res.contentRange.Some?
            && exists r :: FitsU64(r) && Writes(res.contentRange.value, r) &&
                           AnswersRange(r, offset, length, res.contentLength)
  {
    if res.contentRange.Some? {
      var parsed := ParseContentRange(res.contentRange.value);
      if parsed.Some? { ParseContentRangeIff(res.contentRange.value, parsed.value); }
      forall r | FitsU64(r) && Writes(res.contentRange.value, r) ensures parsed == Some(r) {
        ParseContentRangeIff(res.contentRange.value, r);
      }
    }
  }

  // ---------------------------------------------------------------- fetch_chunk

  /** The only thing assumed of the remote side: a partial response that claims to start at byte
      `start` carries the resource's bytes from there on, and a total it states is the resource's length. It
      may be cut short, run long, lie about its length or be any other status. */
  ghost predicate Honest(remote: seq<Byte>, res: Response) {
    res.status == PARTIAL_CONTENT && res.contentRange.Some? ==>
      var r := ParseContentRange(res.contentRange.value);
      r.Some? ==>
        && (r.value.total.Some? ==> r.value.total.value == |remote|)
        && forall i :: 0 <= i < |Concat(res.pieces)| && r.value.start + i <= r.value.end ==>
             0 <= r.value.start + i < |remote| && Concat(res.pieces)[i] == remote[r.value.start + i]
  }

  /** What `fetch_chunk` makes of a response: the body, or None for an error. */
  function Fetched(res: Response, offset: nat, size: nat): Option<seq<Byte>> {
    if ValidateContentRange(res, offset, Some(size)).Some? && res.ended && |Concat(res.pieces)| == size
    then Some(Concat(res.pieces)) else None
  }

  /** The body loop of `fetch_chunk`: append piece by piece, give up as soon as the body would
      exceed `size`, on a transport error, and on a short body. */
  method ReadBody(res: Response, size: nat) returns (r: Option<seq<Byte>>)
    ensures r == if res.ended && |Concat(res.pieces)| == size
                 then Some(Concat(res.pieces)) else None
  {
    var out: seq<Byte> := [];
    var i := 0;
    while i < |res.pieces|
      invariant 0 <= i <= |res.pieces|
      invariant out == Concat(res.pieces[..i]) && |out| <= size
    {
      assert res.pieces[..i + 1][..i] == res.pieces[..i];
      if |out| + |res.pieces[i]| > size {
        ConcatGrows(res.pieces, i + 1);
        return None;
      }
      out := out + res.pieces[i];
      i := i + 1;
    }
    assert res.pieces[..i] == res.pieces;
    r := if res.ended && |out| == size then Some(out) else None;
  }

  /** `fetch_chunk` once the request has been answered. It succeeds exactly when the header
      validates and the body has the requested size. */
  method FetchChunk(res: Response, offset: nat, size: nat) returns (r: Option<seq<Byte>>)
    requires size > 0
    ensures r == Fetched(res, offset, size)
  {
    if res.status == 200 {
      return None;
    }
    var valid := ValidateContentRange(res, offset, Some(size));
    if valid.None? {
      return None;
    }
    ValidCount(res, offset, size);
    if res.contentLength.Some? && res.contentLength.value > size {
      return None;
    }
    r := ReadBody(res, size);
  }

  lemma ValidCount(res: Response, offset: nat, size: nat)
    requires ValidateContentRange(res, offset, Some(size)).Some?
    ensures res.status == PARTIAL_CONTENT && res.contentRange.Some?
    ensures res.contentLength.Some? ==> res.contentLength.value == size
    ensures var r := ParseContentRange(res.contentRange.value);
            r.Some? && r.value.start == offset && r.value.end == offset + size - 1
  {
  }

  lemma BodyIsSlice(remote: seq<Byte>, body: seq<Byte>, offset: nat)
    requires body != [] && forall i :: 0 <= i < |body| ==> offset + i < |remote| && body[i] == remote[offset + i]
    ensures offset + |body| <= |remote| && body == remote[offset..offset + |body|]
  {
    var last := body[|body| - 1];
    assert offset + (|body| - 1) < |remote|;
  }

  /** A fetch from an honest server yields the resource's own bytes at `offset`. */
  lemma FetchedIsRemote(remote: seq<Byte>, res: Response, offset: nat, size: nat)
    requires Honest(remote, res) && size > 0 && Fetched(res, offset, size).Some?
    ensures offset + size <= |remote| && Fetched(res, offset, size).value == remote[offset..offset + size]
  {
    ValidCount(res, offset, size);
    BodyIsSlice(remote, Concat(res.pieces), offset);
  }

  lemma {:induction false} ConcatGrows(pieces: seq<seq<Byte>>, k: nat)
    requires k <= |pieces|
    ensures |Concat(pieces[..k])| <= |Concat(pieces)|
    decreases |pieces|
  {
    if k == |pieces| {
      assert pieces[..k] == pieces;
    } else {
      var front := pieces[..|pieces| - 1];
      ConcatGrows(front, k);
      assert front[..k] == pieces[..k];
    }
  }

  /** An honest server that sends a part of the resource has a response from which it is fetched. */
  function PartOf(remote: seq<Byte>, offset: nat, size: nat): (res: Response)
    requires size > 0 && offset + size <= |remote| < U64_LIMIT
  {
    var header := WriteContentRange(Decimal(offset), Decimal(offset + size - 1), Decimal(|remote|));
    Response(PARTIAL_CONTENT, Some(header), Some(size), [remote[offset..offset + size]], true)
  }

  lemma PartOfParses(remote: seq<Byte>, offset: nat, size: nat)
    requires size > 0 && offset + size <= |remote| < U64_LIMIT
    ensures ParseContentRange(PartOf(remote, offset, size).contentRange.value) ==
            Some(ContentRange(offset, offset + size - 1, Some(|remote|)))
  {
    DecimalIsNumeral(offset);
    DecimalIsNumeral(offset + size - 1);
    DecimalIsNumeral(|remote|);
    ParseInvertsWrite(Decimal(offset), Decimal(offset + size - 1), Decimal(|remote|),
                      ContentRange(offset, offset + size - 1, Some(|remote|)));
  }

  lemma OnePiece(piece: seq<Byte>)
    ensures Concat([piece]) == piece
  {
    assert [piece][..0] == [];
  }

  lemma PartOfIsFetched(remote: seq<Byte>, offset: nat, size: nat)
    requires size > 0 && offset + size <= |remote| < U64_LIMIT
    ensures var res := PartOf(remote, offset, size);
            Honest(remote, res) && Fetched(res, offset, size) == Some(remote[offset..offset + size])
  {
    PartOfParses(remote, offset, size);
    OnePiece(remote[offset..offset + size]);
  }

  lemma DecimalIsNumeral(n: nat)
    ensures IsNumeral(Decimal(n), n)
  {
    assert Decimal(n) == Numeral(false, 0, n);
  }

  /** The length a source takes from its probe ("bytes=0-0"), or None if it refuses to open. */
  function ProbedLength(res: Response): Option<int> {
    if ValidateContentRange(res, 0, Some(1)).None? then None
    else
      var (_, total) :- SplitOnce(res.contentRange.value, '/');
      ParseU64(total)
  }

  /** The text behind the first slash of a header is its total. */
  lemma TotalBehindSlash(header: string, r: ContentRange)
    requires FitsU64(r) && Writes(header, r)
    ensures SplitOnce(header, '/').Some? && IsTotal(SplitOnce(header, '/').value.1, r.total)
  {
    var start: string, end: string, total: string :|
      && header == WriteContentRange(start, end, total)
      && IsNumeral(start, r.start) && IsNumeral(end, r.end) && IsTotal(total, r.total);
    var before := "bytes" + [' '] + (start + ['-'] + end);
    assert header == before + ['/'] + total;
    if '/' in before {
      if '/' in start { NumeralChars(start, r.start, '/'); } else { NumeralChars(end, r.end, '/'); }
    }
    SplitOnceAt(before, '/', total);
  }

  lemma NotANumber()
    ensures ParseU64("*").None?
  {
    assert !IsDigit("*"[0]);
  }

  /** A source opens with length `n` if and only if the probe's answer is a partial one whose header writes the range of
      the first byte of a resource of `n` bytes, and that declares no other length. */
  lemma ProbeOpensIff(res: Response, n: nat)
    ensures ProbedLength(res) == Some(n) <==>
            && res.status == 206 && res.contentRange.Some? && (res.contentLength.Some? ==> res.contentLength.value == 1)
            && 1 <= n < U64_LIMIT && Writes(res.contentRange.value, ContentRange(0, 0, Some(n)))
  {
    ValidatesExactly(res, 0, Some(1));
    if res.contentRange.Some? {
      var header, first := res.contentRange.value, ContentRange(0, 0, Some(n));
      if ValidateContentRange(res, 0, Some(1)).Some? {
        var r :| FitsU64(r) && Writes(header, r) && AnswersRange(r, 0, Some(1), res.contentLength);
        TotalBehindSlash(header, r);
        NotANumber();
        if r.total.Some? { ParseU64Iff(SplitOnce(header, '/').value.1, r.total.value); }
        ParseContentRangeIff(header, r);
      }
      if FitsU64(first) { ParseContentRangeIff(header, first); }
    }
  }

  /** A probe answered by an honest server gives the length of the resource, which is at least one. */
  lemma ProbeFindsLength(remote: seq<Byte>, res: Response)
    requires Honest(remote, res) && ProbedLength(res).Some?
    ensures ProbedLength(res).value == |remote| && 1 <= |remote| < U64_LIMIT
  {
    var header := res.contentRange.value;
    var r := ParseContentRange(header).value;
    ParseContentRangeIff(header, r);
    TotalBehindSlash(header, r);
    NotANumber();
    if r.total.Some? { ParseU64Iff(SplitOnce(header, '/').value.1, r.total.value); }
  }
}
