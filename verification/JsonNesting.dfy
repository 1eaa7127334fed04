/** The bracket-counting depth check run before JSON is parsed (src/core/json_request.h;
    RFC 8259 sections 4, 5 and 7). */
module JsonNesting {
  const MAX_JSON_NESTING_DEPTH := 32

  // ---- JSON values as they are written ----

  /** A character of a string literal: itself, or whatever stands behind a backslash. The four digits
      of a \u escape are plain characters after it. */
  datatype StringPart = Plain(c: char) | Escaped(c: char)

  /** A value with its spelling: the text of a number or literal, the parts of a string, the padding
      around every element, and the colon of a member with its padding. */
  datatype Value =
    | Atom(text: string)
    | Str(parts: seq<StringPart>)
    | Arr(pad: string, items: Items)
    | Obj(pad: string, members: Members)

  datatype Items = NoItems | Items(before: string, head: Value, after: string, tail: Items)

  datatype Members =
    | NoMembers
    | Members(before: string, key: seq<StringPart>, colon: string, head: Value, after: string, tail: Members)

  /** Free of the characters that open or close anything: what padding, separators, numbers and literals
      are made of. */
  predicate Inert(text: string) {
    forall i :: 0 <= i < |text| ==>
      text[i] != '"' && text[i] != '{' && text[i] != '}' && text[i] != '[' && text[i] != ']'
  }

  predicate WrittenString(parts: seq<StringPart>) {
    forall p :: p in parts ==> p.Plain? ==> p.c != '"' && p.c != '\\'
  }

  predicate Written(v: Value) {
    match v
    case Atom(text) => Inert(text)
    case Str(parts) => WrittenString(parts)
    case Arr(pad, items) => Inert(pad) && WrittenItems(items)
    case Obj(pad, members) => Inert(pad) && WrittenMembers(members)
  }

  predicate WrittenItems(items: Items) {
    items.Items? ==> Inert(items.before) && Written(items.head) && Inert(items.after) && WrittenItems(items.tail)
  }

  predicate WrittenMembers(ms: Members) {
    ms.Members? ==>
      && Inert(ms.before) && WrittenString(ms.key) && Inert(ms.colon) && Written(ms.head)
      && Inert(ms.after) && WrittenMembers(ms.tail)
  }

  function PartText(p: StringPart): string {
    match p
    case Plain(c) => [c]
    case Escaped(c) => ['\\', c]
  }

  function PartsText(parts: seq<StringPart>): string {
    if parts == [] then "" else PartText(parts[0]) + PartsText(parts[1..])
  }

  function StringText(parts: seq<StringPart>): string {
    ['"'] + PartsText(parts) + ['"']
  }

  function Text(v: Value): string {
    match v
    case Atom(text) => text
    case Str(parts) => StringText(parts)
    case Arr(pad, items) => ['['] + pad + ItemsText(items) + [']']
    case Obj(pad, members) => ['{'] + pad + MembersText(members) + ['}']
  }

  function ItemsText(items: Items): string {
    match items
    case NoItems => ""
    case Items(before, head, after, tail) =>
      before + Text(head) + (after + if tail.NoItems? then "" else ",") + ItemsText(tail)
  }

  function MembersText(ms: Members): string {
    match ms
    case NoMembers => ""
    case Members(before, key, colon, head, after, tail) =>
      before + (StringText(key) + colon + Text(head)) + (after + if tail.NoMembers? then "" else ",")
        + MembersText(tail)
  }

  function Max(a: nat, b: nat): nat { if a >= b then a else b }

  /** How deeply arrays and objects are nested in a value. */
  function Depth(v: Value): nat {
    match v
    case Atom(_) => 0
    case Str(_) => 0
    case Arr(_, items) => 1 + ItemsDepth(items)
    case Obj(_, members) => 1 + MembersDepth(members)
  }

  function ItemsDepth(items: Items): nat {
    if items.NoItems? then 0 else Max(Depth(items.head), ItemsDepth(items.tail))
  }

  function MembersDepth(ms: Members): nat {
    if ms.NoMembers? then 0 else Max(Depth(ms.head), MembersDepth(ms.tail))
  }

  // ---- the scan ----

  datatype Mode = Outside | Inside | AfterBackslash

  datatype Scan = Exceeded | At(depth: int, mode: Mode)

  function ScanChar(s: Scan, c: char, maxDepth: int): Scan {
    match s
    case Exceeded => Exceeded
    case At(depth, AfterBackslash) => At(depth, Inside)
    case At(depth, Inside) =>
      if c == '\\' then At(depth, AfterBackslash) else if c == '"' then At(depth, Outside) else s
    case At(depth, Outside) =>
      if c == '"' then At(depth, Inside)
      else if c == '{' || c == '[' then if depth + 1 > maxDepth then Exceeded else At(depth + 1, Outside)
      else if c == '}' || c == ']' then At(depth - 1, Outside)
      else s
  }

  function ScanText(s: Scan, text: string, maxDepth: int): Scan
    decreases |text|
  {
    if text == "" then s else ScanText(ScanChar(s, text[0], maxDepth), text[1..], maxDepth)
  }

  lemma {:induction false} ScanConcat(s: Scan, a: string, b: string, maxDepth: int)
    ensures ScanText(s, a + b, maxDepth) == ScanText(ScanText(s, a, maxDepth), b, maxDepth)
    decreases |a|
  {
    if a == "" {
      assert a + b == b;
    } else {
      assert (a + b)[1..] == a[1..] + b;
      ScanConcat(ScanChar(s, a[0], maxDepth), a[1..], b, maxDepth);
    }
  }

  lemma ScanTake(text: string, i: nat, maxDepth: int)
    requires i < |text|
    ensures ScanText(At(0, Outside), text[..i + 1], maxDepth) ==
            ScanChar(ScanText(At(0, Outside), text[..i], maxDepth), text[i], maxDepth)
  {
    assert text[..i + 1] == text[..i] + [text[i]];
    ScanConcat(At(0, Outside), text[..i], [text[i]], maxDepth);
    assert [text[i]][1..] == "";
  }

  lemma {:induction false} ScanStaysExceeded(text: string, maxDepth: int)
    ensures ScanText(Exceeded, text, maxDepth) == Exceeded
    decreases |text|
  {
    if text != "" {
      ScanStaysExceeded(text[1..], maxDepth);
    }
  }

  method ExceedsJsonNestingDepth(text: string, maxDepth: int) returns (exceeds: bool)
    ensures exceeds <==> ScanText(At(0, Outside), text, maxDepth) == Exceeded
  {
    var depth := 0;
    var inString := false;
    var i := 0;
    while i < |text|
      invariant 0 <= i <= |text| + 1
      invariant i <= |text| ==>
                  ScanText(At(0, Outside), text[..i], maxDepth) == At(depth, if inString then Inside else Outside)
      invariant i > |text| ==> ScanText(At(0, Outside), text, maxDepth) != Exceeded
    {
      var c := text[i];
      ScanTake(text, i, maxDepth);
      if inString {
        if c == '\\' {
          if i + 1 < |text| {
            ScanTake(text, i + 1, maxDepth);
          } else {
            assert text[..i + 1] == text;
          }
          i := i + 1;
        } else if c == '"' {
          inString := false;
        }
      } else if c == '"' {
        inString := true;
      } else if c == '{' || c == '[' {
        depth := depth + 1;
        if depth > maxDepth {
          assert text == text[..i + 1] + text[i + 1..];
          ScanConcat(At(0, Outside), text[..i + 1], text[i + 1..], maxDepth);
          ScanStaysExceeded(text[i + 1..], maxDepth);
          return true;
        }
      } else if c == '}' || c == ']' {
        depth := depth - 1;
      }
      i := i + 1;
    }
    if i == |text| {
      assert text[..i] == text;
    }
    return false;
  }

  // ---- the scan measures the tree ----

  lemma {:induction false} ScanInert(depth: int, text: string, maxDepth: int)
    requires Inert(text)
    ensures ScanText(At(depth, Outside), text, maxDepth) == At(depth, Outside)
    decreases |text|
  {
    if text != "" {
      ScanInert(depth, text[1..], maxDepth);
    }
  }

  lemma {:induction false} ScanParts(depth: int, parts: seq<StringPart>, maxDepth: int)
    requires WrittenString(parts)
    ensures ScanText(At(depth, Inside), PartsText(parts), maxDepth) == At(depth, Inside)
    decreases |parts|
  {
    if parts != [] {
      assert parts[0] in parts;
      var head := PartText(parts[0]);
      ScanConcat(At(depth, Inside), head, PartsText(parts[1..]), maxDepth);
      if parts[0].Plain? {
        ScanOne(At(depth, Inside), parts[0].c, maxDepth);
      } else {
        assert head == ['\\'] + [parts[0].c];
        ScanConcat(At(depth, Inside), ['\\'], [parts[0].c], maxDepth);
        ScanOne(At(depth, Inside), '\\', maxDepth);
        ScanOne(At(depth, AfterBackslash), parts[0].c, maxDepth);
      }
      ScanParts(depth, parts[1..], maxDepth);
    }
  }

  lemma ScanOne(s: Scan, c: char, maxDepth: int)
    ensures ScanText(s, [c], maxDepth) == ScanChar(s, c, maxDepth)
  {
    assert [c][1..] == "";
  }

  lemma ScanString(depth: int, parts: seq<StringPart>, maxDepth: int)
    requires WrittenString(parts)
    ensures ScanText(At(depth, Outside), StringText(parts), maxDepth) == At(depth, Outside)
  {
    var s := At(depth, Outside);
    ScanConcat(s, ['"'] + PartsText(parts), ['"'], maxDepth);
    ScanConcat(s, ['"'], PartsText(parts), maxDepth);
    ScanOne(s, '"', maxDepth);
    ScanParts(depth, parts, maxDepth);
    ScanOne(At(depth, Inside), '"', maxDepth);
  }

  /** Where a scan stands after something of the given depth, started at `depth` outside a string. */
  function Passed(depth: int, nested: nat, maxDepth: int): Scan {
    if nested > 0 && depth + nested > maxDepth then Exceeded else At(depth, Outside)
  }

  lemma {:induction false} ScanValue(depth: int, v: Value, maxDepth: int)
    requires Written(v)
    ensures ScanText(At(depth, Outside), Text(v), maxDepth) == Passed(depth, Depth(v), maxDepth)
    decreases v, 0
  {
    match v
    case Atom(text) => ScanInert(depth, text, maxDepth);
    case Str(parts) => ScanString(depth, parts, maxDepth);
    case Arr(pad, items) =>
      if depth < maxDepth { ScanItems(depth + 1, items, maxDepth); }
      ScanBracketed(depth, '[', pad, ItemsText(items), ']', ItemsDepth(items), maxDepth);
    case Obj(pad, members) =>
      if depth < maxDepth { ScanMembers(depth + 1, members, maxDepth); }
      ScanBracketed(depth, '{', pad, MembersText(members), '}', MembersDepth(members), maxDepth);
  }

  lemma ScanBracketed(depth: int, open: char, pad: string, body: string, close: char, nested: nat, maxDepth: int)
    requires (open == '[' && close == ']') || (open == '{' && close == '}')
    requires Inert(pad)
    requires depth < maxDepth ==> ScanText(At(depth + 1, Outside), body, maxDepth) == Passed(depth + 1, nested, maxDepth)
    ensures ScanText(At(depth, Outside), [open] + pad + body + [close], maxDepth) == Passed(depth, 1 + nested, maxDepth)
  {
    var s := At(depth, Outside);
    ScanConcat(s, [open] + pad + body, [close], maxDepth);
    ScanConcat(s, [open] + pad, body, maxDepth);
    ScanConcat(s, [open], pad, maxDepth);
    ScanOne(s, open, maxDepth);
    if depth < maxDepth {
      ScanInert(depth + 1, pad, maxDepth);
      ScanOne(At(depth + 1, Outside), close, maxDepth);
    } else {
      ScanStaysExceeded(pad, maxDepth);
      ScanStaysExceeded(body, maxDepth);
    }
    ScanStaysExceeded([close], maxDepth);
  }

  lemma ScanInertAround(depth: int, before: string, body: string, after: string, nested: nat, maxDepth: int)
    requires Inert(before) && Inert(after)
    requires ScanText(At(depth, Outside), body, maxDepth) == Passed(depth, nested, maxDepth)
    ensures ScanText(At(depth, Outside), before + body + after, maxDepth) == Passed(depth, nested, maxDepth)
  {
    ScanConcat(At(depth, Outside), before + body, after, maxDepth);
    ScanConcat(At(depth, Outside), before, body, maxDepth);
    ScanInert(depth, before, maxDepth);
    ScanInert(depth, after, maxDepth);
    ScanStaysExceeded(after, maxDepth);
  }

  /** One thing after another is as deep as the deeper of the two. */
  lemma ScanBoth(depth: int, a: string, na: nat, b: string, nb: nat, maxDepth: int)
    requires ScanText(At(depth, Outside), a, maxDepth) == Passed(depth, na, maxDepth)
    requires ScanText(At(depth, Outside), b, maxDepth) == Passed(depth, nb, maxDepth)
    ensures ScanText(At(depth, Outside), a + b, maxDepth) == Passed(depth, Max(na, nb), maxDepth)
  {
    ScanConcat(At(depth, Outside), a, b, maxDepth);
    ScanStaysExceeded(b, maxDepth);
  }

  lemma {:induction false} ScanItems(depth: int, items: Items, maxDepth: int)
    requires WrittenItems(items)
    ensures ScanText(At(depth, Outside), ItemsText(items), maxDepth) == Passed(depth, ItemsDepth(items), maxDepth)
    decreases items
  {
    match items
    case NoItems =>
    case Items(before, head, after, tail) =>
      ScanValue(depth, head, maxDepth);
      ScanItems(depth, tail, maxDepth);
      var comma := if tail.NoItems? then "" else ",";
      ScanInertAround(depth, before, Text(head), after + comma, Depth(head), maxDepth);
      ScanBoth(depth, before + Text(head) + (after + comma), Depth(head), ItemsText(tail), ItemsDepth(tail), maxDepth);
  }

  lemma {:induction false} ScanMembers(depth: int, ms: Members, maxDepth: int)
    requires WrittenMembers(ms)
    ensures ScanText(At(depth, Outside), MembersText(ms), maxDepth) == Passed(depth, MembersDepth(ms), maxDepth)
    decreases ms
  {
    match ms
    case NoMembers =>
    case Members(before, key, colon, head, after, tail) =>
      ScanMember(depth, key, colon, head, maxDepth);
      ScanMembers(depth, tail, maxDepth);
      var body := StringText(key) + colon + Text(head);
      var comma := if tail.NoMembers? then "" else ",";
      ScanInertAround(depth, before, body, after + comma, Depth(head), maxDepth);
      ScanBoth(depth, before + body + (after + comma), Depth(head), MembersText(tail), MembersDepth(tail), maxDepth);
  }

  lemma {:induction false} ScanMember(depth: int, key: seq<StringPart>, colon: string, head: Value, maxDepth: int)
    requires WrittenString(key) && Inert(colon) && Written(head)
    ensures ScanText(At(depth, Outside), StringText(key) + colon + Text(head), maxDepth)
            == Passed(depth, Depth(head), maxDepth)
    decreases head, 1
  {
    ScanString(depth, key, maxDepth);
    ScanInert(depth, colon, maxDepth);
    ScanValue(depth, head, maxDepth);
    ScanBoth(depth, StringText(key), 0, colon, 0, maxDepth);
    ScanBoth(depth, StringText(key) + colon, 0, Text(head), Depth(head), maxDepth);
  }

  /** For every JSON value and every way of writing it, with any padding around it, the scan says "too deep"
      exactly when the value is nested more deeply than the limit; a limit below zero lets a
      value without any bracket through. */
  lemma ScanIsExact(before: string, v: Value, after: string, maxDepth: int)
    requires Written(v) && Inert(before) && Inert(after)
    ensures ScanText(At(0, Outside), before + Text(v) + after, maxDepth) == Exceeded
            <==> Depth(v) > maxDepth && Depth(v) > 0
    ensures maxDepth >= 0 ==>
              (ScanText(At(0, Outside), before + Text(v) + after, maxDepth) == Exceeded <==> Depth(v) > maxDepth)
  {
    ScanValue(0, v, maxDepth);
    ScanInertAround(0, before, Text(v), after, Depth(v), maxDepth);
  }

  // ---- any text at all ----

  /** Whether a string literal is open where the text ends, and whether a backslash in it waits for its character. */
  function InString(text: string): (bool, bool) {
    if text == "" then (false, false)
    else
      var (open, escaped) := InString(text[..|text| - 1]);
      var c := text[|text| - 1];
      if !open then (c == '"', false)
      else if escaped then (true, false)
      else (c != '"', c == '\\')
  }

  /** The brackets opened outside strings less those closed. */
  function Balance(text: string): int {
    if text == "" then 0
    else
      var before, c := text[..|text| - 1], text[|text| - 1];
      if InString(before).0 then Balance(before)
      else if c == '{' || c == '[' then Balance(before) + 1
      else if c == '}' || c == ']' then Balance(before) - 1
      else Balance(before)
  }

  /** The k-th character opens a bracket outside any string, one too many. */
  predicate OpensBeyondAt(text: string, maxDepth: int, k: nat)
    requires k < |text|
  {
    && !InString(text[..k]).0 && (text[k] == '{' || text[k] == '[')
    && Balance(text[..k + 1]) > maxDepth
  }

  ghost predicate OpensBeyond(text: string, maxDepth: int) {
    exists k :: 0 <= k < |text| && OpensBeyondAt(text, maxDepth, k)
  }

  lemma OpensBeyondGrows(text: string, c: char, maxDepth: int)
    ensures OpensBeyond(text + [c], maxDepth)
            <==> OpensBeyond(text, maxDepth) || OpensBeyondAt(text + [c], maxDepth, |text|)
  {
    var more := text + [c];
    forall k | 0 <= k < |text|
      ensures OpensBeyondAt(more, maxDepth, k) <==> OpensBeyondAt(text, maxDepth, k)
    {
      assert more[..k] == text[..k] && more[..k + 1] == text[..k + 1];
    }
    if OpensBeyond(text, maxDepth) {
      var k :| 0 <= k < |text| && OpensBeyondAt(text, maxDepth, k);
      assert OpensBeyondAt(more, maxDepth, k);
    }
  }

  /** Whatever the text, JSON or not, the scan says "too deep" exactly when some bracket outside the strings opens
      beyond the limit, those closed before it counted off; else it ends where counting says. */
  lemma {:induction false} ScanCountsBrackets(text: string, maxDepth: int)
    ensures var s := ScanText(At(0, Outside), text, maxDepth);
            if OpensBeyond(text, maxDepth) then s == Exceeded
            else s == At(Balance(text), if !InString(text).0 then Outside
                                        else if InString(text).1 then AfterBackslash else Inside)
    decreases |text|
  {
    if text != "" {
      var n := |text| - 1;
      ScanCountsBrackets(text[..n], maxDepth);
      ScanTake(text, n, maxDepth);
      assert text[..n + 1] == text && text[..n] + [text[n]] == text;
      OpensBeyondGrows(text[..n], text[n], maxDepth);
    }
  }
}
