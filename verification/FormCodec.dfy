/** Percent-encoding and form fields (src/core/url_codec.cpp, src/core/weather_routes.cpp;
    RFC 3986 sections 2.1 and 2.3). Text is a string of bytes. */
module FormCodec {
  import opened Wrappers

  type Byte = c: char | c as int < 256 witness 'a'
  type Bytes = seq<Byte>

  predicate IsDigit(c: Byte) { '0' <= c <= '9' }

  predicate IsAlnum(c: Byte) { IsDigit(c) || 'a' <= c <= 'z' || 'A' <= c <= 'Z' }

  predicate IsHexDigit(c: Byte) { IsDigit(c) || 'a' <= c <= 'f' || 'A' <= c <= 'F' }

  predicate Unreserved(c: Byte) {
    IsAlnum(c) || c == '-' || c == '_' || c == '.' || c == '~'
  }

  function ToLower(c: Byte): Byte {
    if 'A' <= c <= 'Z' then (c as int + 32) as char else c
  }

  function HexValue(c: Byte): nat
    requires IsHexDigit(c)
  {
    if IsDigit(c) then c as int - '0' as int else ToLower(c) as int - 'a' as int + 10
  }

  const HEX_DIGITS: Bytes := "0123456789ABCDEF"

  lemma HexDigitValue(n: nat)
    requires n < 16
    ensures IsHexDigit(HEX_DIGITS[n]) && HexValue(HEX_DIGITS[n]) == n && Unreserved(HEX_DIGITS[n])
  {
  }

  function EncodeByte(c: Byte): Bytes {
    if Unreserved(c) then [c] else ['%', HEX_DIGITS[c as int / 16], HEX_DIGITS[c as int % 16]]
  }

  function Encode(text: Bytes): Bytes {
    if text == [] then [] else EncodeByte(text[0]) + Encode(text[1..])
  }

  /** A percent sign stands for a byte when two hex digits follow; alone it stands for itself. */
  predicate EscapeAt(text: Bytes, i: nat) {
    i + 2 < |text| && text[i] == '%' && IsHexDigit(text[i + 1]) && IsHexDigit(text[i + 2])
  }

  function Unescape(hi: Byte, lo: Byte): Byte
    requires IsHexDigit(hi) && IsHexDigit(lo)
  {
    (HexValue(hi) * 16 + HexValue(lo)) as char
  }

  function Decode(text: Bytes): Bytes {
    if text == [] then []
    else if EscapeAt(text, 0) then [Unescape(text[1], text[2])] + Decode(text[3..])
    else [if text[0] == '+' then ' ' else text[0]] + Decode(text[1..])
  }

  lemma {:induction false} EncodeSnoc(text: Bytes, c: Byte)
    ensures Encode(text + [c]) == Encode(text) + EncodeByte(c)
    decreases |text|
  {
    if text == [] {
      assert [c][1..] == [];
      assert text + [c] == [c];
    } else {
      assert (text + [c])[1..] == text[1..] + [c];
      EncodeSnoc(text[1..], c);
    }
  }

  method UrlEncode(text: Bytes) returns (result: Bytes)
    ensures result == Encode(text)
  {
    result := [];
    var i := 0;
    while i < |text|
      invariant 0 <= i <= |text| && result == Encode(text[..i])
    {
      var c := text[i];
      EncodeTake(text, i);
      if IsAlnum(c) || c == '-' || c == '_' || c == '.' || c == '~' {
        result := result + [c];
      } else {
        result := result + ['%'];
        result := result + [HEX_DIGITS[c as int / 16]];
        result := result + [HEX_DIGITS[c as int % 16]];
      }
      i := i + 1;
    }
    assert text[..i] == text;
  }

  lemma EncodeTake(text: Bytes, i: nat)
    requires i < |text|
    ensures Encode(text[..i + 1]) == Encode(text[..i]) + EncodeByte(text[i])
  {
    EncodeSnoc(text[..i], text[i]);
    assert text[..i + 1] == text[..i] + [text[i]];
  }

  method UrlDecode(text: Bytes) returns (result: Bytes)
    ensures result == Decode(text)
  {
    result := [];
    var i := 0;
    while i < |text|
      invariant 0 <= i <= |text| && result + Decode(text[i..]) == Decode(text)
    {
      DecodeAfter(result, text, i);
      if text[i] == '%' && i + 2 < |text| && IsHexDigit(text[i + 1]) && IsHexDigit(text[i + 2]) {
        result := result + [Unescape(text[i + 1], text[i + 2])];
        i := i + 2;
      } else if text[i] == '+' {
        result := result + [' '];
      } else {
        result := result + [text[i]];
      }
      i := i + 1;
    }
  }

  /** One turn of the decoding loop: a decoded byte moves from the rest to the result. */
  lemma DecodeAfter(result: Bytes, text: Bytes, i: nat)
    requires i < |text|
    ensures result + Decode(text[i..]) ==
            if EscapeAt(text, i) then result + [Unescape(text[i + 1], text[i + 2])] + Decode(text[i + 3..])
            else result + [if text[i] == '+' then ' ' else text[i]] + Decode(text[i + 1..])
  {
    if EscapeAt(text, i) {
      assert text[i..][3..] == text[i + 3..];
    } else {
      assert text[i..][1..] == text[i + 1..];
    }
  }

  // ---- decoding undoes encoding ----

  lemma DecodeEncodedByte(c: Byte, rest: Bytes)
    ensures Decode(EncodeByte(c) + rest) == [c] + Decode(rest)
  {
    var text := EncodeByte(c) + rest;
    if Unreserved(c) {
      assert text[1..] == rest;
    } else {
      HexDigitValue(c as int / 16);
      HexDigitValue(c as int % 16);
      assert text[3..] == rest;
    }
  }

  lemma Associative(a: Bytes, b: Bytes, c: Bytes)
    ensures (a + b) + c == a + (b + c)
  {
  }

  lemma {:induction false} DecodeEncoded(text: Bytes, rest: Bytes)
    ensures Decode(Encode(text) + rest) == text + Decode(rest)
    decreases |text|
  {
    if text == [] {
      assert Encode(text) + rest == rest;
    } else {
      var tail := Encode(text[1..]);
      Associative(EncodeByte(text[0]), tail, rest);
      DecodeEncodedByte(text[0], tail + rest);
      DecodeEncoded(text[1..], rest);
      Associative([text[0]], text[1..], Decode(rest));
      assert text == [text[0]] + text[1..];
    }
  }

  lemma DecodeInvertsEncode(text: Bytes)
    ensures Decode(Encode(text)) == text
  {
    DecodeEncoded(text, []);
    assert Encode(text) + [] == Encode(text);
  }

  /** Encoded text carries nothing a URL or a form would read as structure. */
  lemma {:induction false} EncodedIsPlain(text: Bytes)
    ensures forall c :: c in Encode(text) ==>
              '0' <= c <= '9' || 'a' <= c <= 'z' || 'A' <= c <= 'Z' || c in "-_.~%"
    decreases |text|
  {
    if text != [] {
      HexDigitValue(text[0] as int / 16);
      HexDigitValue(text[0] as int % 16);
      EncodedIsPlain(text[1..]);
    }
  }

  // ---- decoding reads every encoding, not only this one ----

  /** How a byte may be written: as it is, a space as '+', or as an escape with digits of either case. */
  datatype Way = AsIs | Plus | Escape(hi: Byte, lo: Byte)

  const DIGITS_OF_EITHER_CASE: Bytes := "0123456789abcdefABCDEF"

  lemma HexDigitIff(c: Byte)
    ensures IsHexDigit(c) <==> c in DIGITS_OF_EITHER_CASE
  {
    if '0' <= c <= '9' {
      assert DIGITS_OF_EITHER_CASE[c as int - 48] == c;
    } else if 'a' <= c <= 'f' {
      assert DIGITS_OF_EITHER_CASE[c as int - 87] == c;
    } else if 'A' <= c <= 'F' {
      assert DIGITS_OF_EITHER_CASE[c as int - 49] == c;
    }
  }

  function DigitValue(c: Byte): int {
    if '0' <= c <= '9' then c as int - 48 else if 'a' <= c <= 'f' then c as int - 87 else c as int - 55
  }

  predicate Writes(way: Way, c: Byte) {
    match way
    case AsIs => c != '%' && c != '+'
    case Plus => c == ' '
    case Escape(hi, lo) =>
      hi in DIGITS_OF_EITHER_CASE && lo in DIGITS_OF_EITHER_CASE && c as int == 16 * DigitValue(hi) + DigitValue(lo)
  }

  function WrittenByte(c: Byte, way: Way): Bytes {
    match way
    case AsIs => [c]
    case Plus => ['+']
    case Escape(hi, lo) => ['%', hi, lo]
  }

  function WrittenAs(text: Bytes, ways: seq<Way>): Bytes
    requires |ways| == |text|
  {
    if text == [] then [] else WrittenByte(text[0], ways[0]) + WrittenAs(text[1..], ways[1..])
  }

  lemma WrittenByteDecodes(c: Byte, way: Way, rest: Bytes)
    requires Writes(way, c)
    ensures Decode(WrittenByte(c, way) + rest) == [c] + Decode(rest)
  {
    var written := WrittenByte(c, way) + rest;
    if way.Escape? {
      HexDigitIff(way.hi);
      HexDigitIff(way.lo);
      assert written[3..] == rest;
    } else {
      assert written[1..] == rest;
    }
  }

  /** However each byte of a text was written, decoding gives the text back. */
  lemma {:induction false} DecodesEveryEncoding(text: Bytes, ways: seq<Way>)
    requires |ways| == |text| && forall i :: 0 <= i < |text| ==> Writes(ways[i], text[i])
    ensures Decode(WrittenAs(text, ways)) == text
    decreases |text|
  {
    if text != [] {
      WrittenByteDecodes(text[0], ways[0], WrittenAs(text[1..], ways[1..]));
      DecodesEveryEncoding(text[1..], ways[1..]);
    }
  }

  predicate IsLone(text: Bytes, i: nat) {
    i + 2 < |text| && text[i] == '%' ==>
      !(text[i + 1] in DIGITS_OF_EITHER_CASE && text[i + 2] in DIGITS_OF_EITHER_CASE)
  }

  /** Text without a '+' and without a '%' that two hex digits follow is no encoding of anything else: a lone
      percent sign stands for itself. */
  lemma {:induction false} NothingToDecode(text: Bytes)
    requires forall i :: 0 <= i < |text| ==> text[i] != '+' && IsLone(text, i)
    ensures Decode(text) == text
    decreases |text|
  {
    if text != [] {
      var rest := text[1..];
      forall i | 0 <= i < |rest|
        ensures rest[i] != '+' && IsLone(rest, i)
      {
        assert rest[i] == text[i + 1] && IsLone(text, i + 1);
      }
      NothingToDecode(rest);
      assert IsLone(text, 0);
      if |text| > 2 {
        HexDigitIff(text[1]);
        HexDigitIff(text[2]);
      }
    }
  }

  /** The way encoding writes a byte: unreserved ones as they are, every other one escaped in upper case. */
  predicate IsCanonical(way: Way, c: Byte) {
    && Writes(way, c) && !way.Plus?
    && (way.AsIs? <==> '0' <= c <= '9' || 'a' <= c <= 'z' || 'A' <= c <= 'Z' || c in "-_.~")
    && (way.Escape? ==> !('a' <= way.hi <= 'f') && !('a' <= way.lo <= 'f'))
  }

  lemma EncodeByteWrites(c: Byte) returns (way: Way)
    ensures IsCanonical(way, c) && EncodeByte(c) == WrittenByte(c, way)
  {
    if Unreserved(c) {
      way := AsIs;
    } else {
      HexDigitValue(c as int / 16);
      HexDigitValue(c as int % 16);
      way := Escape(HEX_DIGITS[c as int / 16], HEX_DIGITS[c as int % 16]);
    }
  }

  /** Encoding is one of those ways to write a text, the canonical one. */
  lemma {:induction false} EncodeIsCanonical(text: Bytes) returns (ways: seq<Way>)
    ensures |ways| == |text| && Encode(text) == WrittenAs(text, ways)
    ensures forall i :: 0 <= i < |text| ==> IsCanonical(ways[i], text[i])
    decreases |text|
  {
    ways := [];
    if text != [] {
      var way := EncodeByteWrites(text[0]);
      var later := EncodeIsCanonical(text[1..]);
      ways := [way] + later;
      assert ways[1..] == later;
    }
  }

  // ---- form fields ----

  /** The first '&' at or after `from`, or the end of the text. */
  function NextAmp(text: Bytes, from: nat): (end: nat)
    requires from <= |text|
    ensures from <= end <= |text|
    ensures '&' !in text[from..end] && (end < |text| ==> text[end] == '&')
    decreases |text| - from
  {
    if from == |text| || text[from] == '&' then from
    else
      var end := NextAmp(text, from + 1);
      assert text[from..end] == [text[from]] + text[from + 1..end];
      end
  }

  function Split(text: Bytes): seq<Bytes>
    decreases |text|
  {
    var end := NextAmp(text, 0);
    if end == |text| then [text] else [text[..end]] + Split(text[end + 1..])
  }

  /** The first segment that starts with the prefix, without it. */
  function FirstField(segments: seq<Bytes>, prefix: Bytes): Option<Bytes> {
    if segments == [] then None
    else if prefix <= segments[0] then Some(segments[0][|prefix|..])
    else FirstField(segments[1..], prefix)
  }

  /** What a form says about a key: split it at every '&', and take the first field of that key. */
  function Field(form: Bytes, key: Bytes): Option<Bytes> {
    match FirstField(Split(form), key + ['='])
    case None => None
    case Some(raw) => Some(Decode(raw))
  }

  predicate Occurs(text: Bytes, pattern: Bytes, at: nat) {
    at + |pattern| <= |text| && text[at..at + |pattern|] == pattern
  }

  /** std::string::find. */
  method Find(text: Bytes, pattern: Bytes, from: nat) returns (at: Option<nat>)
    ensures at.Some? ==> from <= at.value && Occurs(text, pattern, at.value)
    ensures forall p :: from <= p && (at.Some? ==> p < at.value) ==> !Occurs(text, pattern, p)
  {
    var p := from;
    while p + |pattern| <= |text|
      invariant from <= p && forall q :: from <= q < p ==> !Occurs(text, pattern, q)
      decreases |text| - p
    {
      if text[p..p + |pattern|] == pattern {
        return Some(p);
      }
      p := p + 1;
    }
    return None;
  }

  /** A field starts at the start of the form and right after every '&'. */
  predicate Boundary(form: Bytes, p: nat) {
    p <= |form| && (p == 0 || form[p - 1] == '&')
  }

  predicate FieldStarts(form: Bytes, prefix: Bytes, p: nat) {
    Boundary(form, p) && Occurs(form, prefix, p)
  }

  ghost predicate IsFirstField(form: Bytes, prefix: Bytes, at: Option<nat>) {
    && (at.Some? ==> FieldStarts(form, prefix, at.value))
    && (forall p: nat :: (at.Some? ==> p < at.value) ==> !FieldStarts(form, prefix, p))
  }

  /** The text of a field whose prefix is found at `at`. */
  function FieldText(form: Bytes, prefix: Bytes, at: Option<nat>): Option<Bytes>
    requires at.Some? ==> at.value + |prefix| <= |form|
  {
    if at.None? then None
    else
      var start := at.value + |prefix|;
      Some(form[start..NextAmp(form, start)])
  }

  /** A prefix without '&' is found at the start of a text exactly when it is found in its first segment. */
  lemma PrefixInFirstSegment(form: Bytes, prefix: Bytes)
    requires '&' !in prefix
    ensures Occurs(form, prefix, 0) <==> prefix <= form[..NextAmp(form, 0)]
  {
    var end := NextAmp(form, 0);
    if Occurs(form, prefix, 0) {
      forall i | 0 <= i < |prefix| ensures form[i] != '&' {
        assert prefix[i] in prefix && form[0..0 + |prefix|][i] == form[i];
      }
    }
  }

  lemma FirstSegmentHasIt(form: Bytes, prefix: Bytes, at: Option<nat>)
    requires '&' !in prefix && IsFirstField(form, prefix, at)
    requires prefix <= form[..NextAmp(form, 0)]
    ensures FieldText(form, prefix, at) == Some(form[|prefix|..NextAmp(form, 0)])
  {
    var end := NextAmp(form, 0);
    PrefixInFirstSegment(form, prefix);
    assert FieldStarts(form, prefix, 0);
    assert at == Some(0);
    assert form[|prefix|..end] == form[0..end][|prefix|..];
    NextAmpIs(form, |prefix|, end);
  }

  lemma ShiftText(form: Bytes, prefix: Bytes, end: nat, p: nat)
    requires end < |form| && p + |prefix| <= |form[end + 1..]|
    ensures FieldText(form[end + 1..], prefix, Some(p)) == FieldText(form, prefix, Some(end + 1 + p))
  {
    var rest := form[end + 1..];
    var start := p + |prefix|;
    var stop := NextAmp(rest, start);
    assert rest[start..stop] == form[end + 1 + start..end + 1 + stop];
    NextAmpIs(form, end + 1 + start, end + 1 + stop);
  }

  lemma LaterSegmentHasIt(form: Bytes, prefix: Bytes, at: Option<nat>, end: nat)
    requires IsFirstField(form, prefix, at) && end < |form| && form[end] == '&'
    requires forall p: nat :: p <= end ==> !FieldStarts(form, prefix, p)
    ensures at.Some? ==> at.value > end
    ensures IsFirstField(form[end + 1..], prefix, if at.None? then None else Some(at.value - (end + 1)))
  {
    var rest := form[end + 1..];
    if at.Some? {
      ShiftField(form, prefix, end, at.value - (end + 1));
    }
    forall p: nat | at.Some? ==> p < at.value - (end + 1) ensures !FieldStarts(rest, prefix, p) {
      ShiftField(form, prefix, end, p);
    }
  }

  lemma FirstFieldOfSplit(form: Bytes, prefix: Bytes, end: nat)
    requires end == NextAmp(form, 0)
    ensures FirstField(Split(form), prefix) ==
            if prefix <= form[..end] then Some(form[..end][|prefix|..])
            else if end == |form| then None
            else FirstField(Split(form[end + 1..]), prefix)
  {
    if end == |form| {
      assert form[..end] == form;
      assert Split(form) == [form] && [form][1..] == [];
    } else {
      assert Split(form)[1..] == Split(form[end + 1..]);
    }
  }

  lemma NoEarlyField(form: Bytes, prefix: Bytes, end: nat)
    requires '&' !in prefix && end == NextAmp(form, 0) && !(prefix <= form[..end])
    ensures forall p: nat :: p <= end ==> !FieldStarts(form, prefix, p)
  {
    PrefixInFirstSegment(form, prefix);
    NoBoundaryInside(form, end);
  }

  /** Looking for the prefix at every boundary is looking for it in every segment. */
  lemma {:induction false} FirstFieldFound(form: Bytes, prefix: Bytes, at: Option<nat>)
    requires '&' !in prefix && IsFirstField(form, prefix, at)
    ensures FirstField(Split(form), prefix) == FieldText(form, prefix, at)
    decreases |form|
  {
    var end := NextAmp(form, 0);
    FirstFieldOfSplit(form, prefix, end);
    if prefix <= form[..end] {
      FirstSegmentHasIt(form, prefix, at);
      assert form[..end][|prefix|..] == form[|prefix|..end];
    } else if end == |form| {
      NoEarlyField(form, prefix, end);
    } else {
      var later := LaterField(form, prefix, at, end);
      FirstFieldFound(form[end + 1..], prefix, later);
    }
  }

  /** A field after the first segment is the first field of the rest. */
  lemma LaterField(form: Bytes, prefix: Bytes, at: Option<nat>, end: nat) returns (later: Option<nat>)
    requires '&' !in prefix && IsFirstField(form, prefix, at)
    requires end == NextAmp(form, 0) && end < |form| && !(prefix <= form[..end])
    ensures IsFirstField(form[end + 1..], prefix, later)
    ensures FieldText(form, prefix, at) == FieldText(form[end + 1..], prefix, later)
  {
    NoEarlyField(form, prefix, end);
    LaterSegmentHasIt(form, prefix, at, end);
    later := if at.None? then None else Some(at.value - (end + 1));
    if at.Some? {
      ShiftText(form, prefix, end, at.value - (end + 1));
    }
  }

  lemma {:induction false} NextAmpIs(text: Bytes, from: nat, end: nat)
    requires from <= end <= |text|
    requires '&' !in text[from..end] && (end < |text| ==> text[end] == '&')
    ensures NextAmp(text, from) == end
  {
  }

  lemma NoBoundaryInside(form: Bytes, end: nat)
    requires end <= |form| && '&' !in form[0..end]
    ensures forall p :: 0 < p <= end ==> !Boundary(form, p)
  {
    forall p | 0 < p <= end ensures !Boundary(form, p) {
      assert form[p - 1] == form[0..end][p - 1];
    }
  }

  lemma ShiftField(form: Bytes, prefix: Bytes, end: nat, p: nat)
    requires end < |form| && form[end] == '&'
    ensures FieldStarts(form[end + 1..], prefix, p) <==> FieldStarts(form, prefix, end + 1 + p)
  {
    var rest := form[end + 1..];
    if p + |prefix| <= |rest| {
      assert rest[p..p + |prefix|] == form[end + 1 + p..end + 1 + p + |prefix|];
    }
  }

  lemma NotAPrefix(prefix: Bytes, text: Bytes, c: Byte)
    requires c in prefix && c !in text
    ensures !(prefix <= text)
  {
    var i :| 0 <= i < |prefix| && prefix[i] == c;
    assert i < |text| ==> text[i] != c;
  }

  /** A key that holds '&' is in no segment, so splitting never finds it. */
  lemma {:induction false} AmpKeyIsNoField(form: Bytes, key: Bytes)
    requires '&' in key
    ensures Field(form, key) == None
    decreases |form|
  {
    var prefix := key + ['='];
    var end := NextAmp(form, 0);
    FirstFieldOfSplit(form, prefix, end);
    assert form[0..end] == form[..end];
    NotAPrefix(prefix, form[..end], '&');
    if end < |form| {
      AmpKeyIsNoField(form[end + 1..], key);
    }
  }

  /** Reading a key at its first boundary is what splitting the form says exactly when the key is free of
      '&' or is not found at all. */
  lemma ReadAtBoundaryIff(form: Bytes, key: Bytes, at: Option<nat>)
    requires IsFirstField(form, key + ['='], at)
    ensures Decoded(FieldText(form, key + ['='], at)) == Field(form, key) <==> '&' !in key || at.None?
  {
    var prefix := key + ['='];
    if '&' in key {
      AmpKeyIsNoField(form, key);
    } else {
      assert '&' !in prefix;
      FirstFieldFound(form, prefix, at);
    }
  }

  function Decoded(raw: Option<Bytes>): Option<Bytes> {
    if raw.None? then None else Some(Decode(raw.value))
  }

  /** The first boundary of the form where the prefix stands. */
  method FindField(form: Bytes, prefix: Bytes) returns (at: Option<nat>)
    ensures IsFirstField(form, prefix, at)
  {
    var pos := 0;
    while true
      invariant forall p :: 0 <= p < pos ==> !FieldStarts(form, prefix, p)
      decreases |form| + 1 - pos
    {
      var found := Find(form, prefix, pos);
      if found.None? {
        return None;
      }
      pos := found.value;
      if pos == 0 || form[pos - 1] == '&' {
        return Some(pos);
      }
      pos := pos + 1;
    }
  }

  /** The value of a key is read at `at`, the first boundary of the form where the key and '=' stand. */
  method ParseFormField(form: Bytes, key: Bytes) returns (value: Option<Bytes>, ghost at: Option<nat>)
    ensures IsFirstField(form, key + ['='], at)
    ensures value == Decoded(FieldText(form, key + ['='], at))
    ensures value == Field(form, key) <==> '&' !in key || at.None?
  {
    var prefix := key + ['='];
    var pos := FindField(form, prefix);
    at := pos;
    ReadAtBoundaryIff(form, key, at);
    if pos.None? {
      return None, at;
    }
    var start := pos.value + |prefix|;
    var end := Find(form, ['&'], start);
    var stop := if end.None? then |form| else end.value;
    AmpFound(form, start, end);
    var decoded := UrlDecode(form[start..stop]);
    return Some(decoded), at;
  }

  lemma AmpFound(form: Bytes, start: nat, end: Option<nat>)
    requires start <= |form|
    requires end.Some? ==> start <= end.value && Occurs(form, ['&'], end.value)
    requires forall p :: start <= p && (end.Some? ==> p < end.value) ==> !Occurs(form, ['&'], p)
    ensures NextAmp(form, start) == if end.None? then |form| else end.value
  {
    var stop := if end.None? then |form| else end.value;
    forall i | start <= i < stop ensures form[i] != '&' {
      assert !Occurs(form, ['&'], i);
      assert form[i..i + 1] == [form[i]];
    }
    if end.Some? {
      assert form[stop] == form[stop..stop + 1][0];
    }
    NextAmpIs(form, start, stop);
  }

  // ---- a form printed field by field parses back ----

  datatype Entry = Entry(key: Bytes, value: Bytes)

  function Pair(e: Entry): Bytes {
    e.key + ['='] + Encode(e.value)
  }

  function FormOf(entries: seq<Entry>): Bytes {
    if entries == [] then []
    else if |entries| == 1 then Pair(entries[0])
    else Pair(entries[0]) + ['&'] + FormOf(entries[1..])
  }

  function Lookup(entries: seq<Entry>, key: Bytes): Option<Bytes> {
    if entries == [] then None
    else if entries[0].key == key then Some(entries[0].value)
    else Lookup(entries[1..], key)
  }

  predicate PlainKey(key: Bytes) {
    '&' !in key && '=' !in key
  }

  lemma PairHasKey(e: Entry, key: Bytes)
    requires PlainKey(e.key) && PlainKey(key)
    ensures key + ['='] <= Pair(e) <==> e.key == key
    ensures e.key == key ==> Pair(e)[|key| + 1..] == Encode(e.value)
  {
    var prefix, pair := key + ['='], Pair(e);
    assert pair[|e.key|] == '=' && prefix[|key|] == '=';
    if prefix <= pair {
      assert forall i :: 0 <= i < |prefix| ==> prefix[i] == pair[i];
      assert forall i :: 0 <= i < |key| ==> key[i] == pair[i] != '=';
      assert forall i :: 0 <= i < |e.key| ==> e.key[i] == pair[i] != '=';
    }
  }

  lemma SplitPair(e: Entry, rest: Bytes)
    requires PlainKey(e.key)
    ensures Split(Pair(e)) == [Pair(e)]
    ensures Split(Pair(e) + ['&'] + rest) == [Pair(e)] + Split(rest)
  {
    var pair := Pair(e);
    EncodedIsPlain(e.value);
    assert '&' !in pair;
    assert pair[0..|pair|] == pair;
    NextAmpIs(pair, 0, |pair|);
    var form := pair + ['&'] + rest;
    assert form[0..|pair|] == pair && form[|pair| + 1..] == rest;
    NextAmpIs(form, 0, |pair|);
  }

  /** Printing entries as a form and asking for a key gives back the value of its first entry, whatever
      bytes the values hold. */
  lemma {:induction false} FormRoundTrip(entries: seq<Entry>, key: Bytes)
    requires PlainKey(key) && forall i :: 0 <= i < |entries| ==> PlainKey(entries[i].key)
    ensures Field(FormOf(entries), key) == Lookup(entries, key)
    decreases |entries|
  {
    var prefix := key + ['='];
    if entries == [] {
      FirstFieldOfSplit([], prefix, 0);
      assert !(prefix <= []);
    } else {
      var e := entries[0];
      PairHasKey(e, key);
      DecodeInvertsEncode(e.value);
      SplitPair(e, FormOf(entries[1..]));
      if |entries| == 1 {
        assert FirstField([Pair(e)], prefix) ==
               if prefix <= Pair(e) then Some(Pair(e)[|prefix|..]) else FirstField([Pair(e)][1..], prefix);
        assert entries[1..] == [];
      } else {
        var segments := Split(FormOf(entries));
        assert segments[1..] == Split(FormOf(entries[1..]));
        FormRoundTrip(entries[1..], key);
      }
    }
  }
}
