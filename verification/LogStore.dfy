/** What the logger keeps on flash: two size-capped blobs of newline-terminated lines
    (src/core/logger.cpp). */
module LogStore {
  predicate IsLine(line: string) {
    line != "" && forall i :: 0 <= i < |line| ==> line[i] != '\n'
  }

  function Unlines(lines: seq<string>): string {
    if lines == [] then "" else lines[0] + "\n" + Unlines(lines[1..])
  }

  // ---- trimming to the newest lines ----

  /** Position of the first newline at or after `from`, or the end of the text. */
  function NextNewline(text: string, from: nat): (end: nat)
    requires from <= |text|
    ensures from <= end <= |text|
    ensures (forall i :: from <= i < end ==> text[i] != '\n') && (end < |text| ==> text[end] == '\n')
    decreases |text| - from
  {
    if from == |text| || text[from] == '\n' then from else NextNewline(text, from + 1)
  }

  /** A line starts at 0 and after every newline but a final one. */
  predicate LineStart(blob: string, p: nat) {
    p == 0 || (p < |blob| && blob[p - 1] == '\n')
  }

  /** Drops the oldest line for as long as the text is too long and holds another one. */
  function Trim(blob: string, maxBytes: nat): string
    decreases |blob|
  {
    var next := NextNewline(blob, 0) + 1;
    if |blob| <= maxBytes || next >= |blob| then blob else Trim(blob[next..], maxBytes)
  }

  /** Where trimming cuts: the earliest line start whose tail fits, or the last line start if none does. */
  ghost predicate CutAt(blob: string, maxBytes: nat, cut: nat) {
    && cut <= |blob| && LineStart(blob, cut)
    && (forall p: nat :: p < cut && LineStart(blob, p) ==> |blob| - p > maxBytes)
    && (|blob| - cut <= maxBytes || forall p: nat :: cut < p ==> !LineStart(blob, p))
  }

  lemma {:induction false} TrimIsTheCut(blob: string, maxBytes: nat, cut: nat)
    requires CutAt(blob, maxBytes, cut)
    ensures blob[cut..] == Trim(blob, maxBytes)
    decreases |blob|
  {
    var next := NextNewline(blob, 0) + 1;
    assert LineStart(blob, 0);
    if |blob| > maxBytes && next < |blob| {
      assert LineStart(blob, next);
      assert cut >= next;
      var rest := blob[next..];
      forall p: nat ensures LineStart(rest, p) <==> LineStart(blob, next + p) {}
      assert CutAt(rest, maxBytes, cut - next) by {
        forall p: nat | p < cut - next && LineStart(rest, p) ensures |rest| - p > maxBytes {
          assert LineStart(blob, next + p);
        }
        forall p: nat | |blob| - cut > maxBytes && cut - next < p ensures !LineStart(rest, p) {
          assert !LineStart(blob, next + p);
        }
      }
      TrimIsTheCut(rest, maxBytes, cut - next);
      assert rest[cut - next..] == blob[cut..];
    }
  }

  /** The newest lines of a blob: the longest line-aligned tail within the cap, or the last line alone. */
  method TrimToTail(blob: string, maxBytes: nat) returns (tail: string)
    ensures tail == Trim(blob, maxBytes)
    ensures exists cut: nat :: CutAt(blob, maxBytes, cut) && tail == blob[cut..]
  {
    if |blob| <= maxBytes {
      assert CutAt(blob, maxBytes, 0) && blob == blob[0..];
      return blob;
    }
    var lineStarts: seq<nat> := [0];
    var pos := NextNewline(blob, 0);
    while pos + 1 < |blob|
      invariant pos <= |blob| && (pos < |blob| ==> blob[pos] == '\n')
      invariant lineStarts != [] && lineStarts[0] == 0
      invariant forall k :: 0 <= k < |lineStarts| ==> lineStarts[k] <= pos && LineStart(blob, lineStarts[k])
      invariant forall j, k :: 0 <= j < k < |lineStarts| ==> lineStarts[j] < lineStarts[k]
      invariant forall p: nat :: p <= pos && p < |blob| && LineStart(blob, p) ==> p in lineStarts
      decreases |blob| - pos
    {
      lineStarts := lineStarts + [pos + 1];
      pos := NextNewline(blob, pos + 1);
    }
    assert forall p: nat :: p < |blob| && LineStart(blob, p) ==> p in lineStarts;
    var k := |lineStarts| - 1;
    var cut := lineStarts[k];
    while k > 0 && |blob| - lineStarts[k - 1] <= maxBytes
      invariant 0 <= k < |lineStarts| && cut == lineStarts[k]
      invariant k == |lineStarts| - 1 || |blob| - cut <= maxBytes
    {
      k := k - 1;
      cut := lineStarts[k];
    }
    CutFound(blob, maxBytes, lineStarts, k);
    TrimIsTheCut(blob, maxBytes, cut);
    return blob[cut..];
  }

  lemma CutFound(blob: string, maxBytes: nat, starts: seq<nat>, k: nat)
    requires k < |starts| && (forall i :: 0 <= i < |starts| ==> starts[i] <= |blob| && LineStart(blob, starts[i]))
    requires forall i, j :: 0 <= i < j < |starts| ==> starts[i] < starts[j]
    requires forall p: nat :: p < |blob| && LineStart(blob, p) ==> p in starts
    requires k == |starts| - 1 || |blob| - starts[k] <= maxBytes
    requires k > 0 ==> |blob| - starts[k - 1] > maxBytes
    ensures CutAt(blob, maxBytes, starts[k])
  {
    var cut := starts[k];
    forall p: nat | p < cut && LineStart(blob, p) ensures |blob| - p > maxBytes {
      var i :| 0 <= i < |starts| && starts[i] == p;
      assert i < k && starts[i] <= starts[k - 1];
    }
    assert |blob| - cut > maxBytes ==> forall i :: 0 <= i < |starts| ==> starts[i] <= cut;
  }

  // ---- the stored lines as elements of one array ----

  function SplitLines(blob: string): seq<string>
    decreases |blob|
  {
    var end := NextNewline(blob, 0);
    if end == |blob| then [blob] else [blob[..end]] + SplitLines(blob[end + 1..])
  }

  /** Texts put back together with a newline between them. */
  function Rejoined(pieces: seq<string>): string {
    if pieces == [] then ""
    else if |pieces| == 1 then pieces[0]
    else pieces[0] + "\n" + Rejoined(pieces[1..])
  }

  /** The split is at every newline and nowhere else. */
  lemma {:induction false} SplitIsExact(blob: string)
    ensures Rejoined(SplitLines(blob)) == blob && SplitLines(blob) != []
    ensures forall i :: 0 <= i < |SplitLines(blob)| ==> '\n' !in SplitLines(blob)[i]
    decreases |blob|
  {
    var end := NextNewline(blob, 0);
    if end < |blob| {
      SplitIsExact(blob[end + 1..]);
      assert SplitLines(blob)[1..] == SplitLines(blob[end + 1..]);
      assert blob == blob[..end] + "\n" + blob[end + 1..];
    }
  }

  function NonEmpty(lines: seq<string>): seq<string> {
    if lines == [] then []
    else (if lines[0] == "" then [] else [lines[0]]) + NonEmpty(lines[1..])
  }

  function Joined(lines: seq<string>): string {
    if lines == [] then ""
    else if |lines| == 1 then lines[0]
    else lines[0] + "," + Joined(lines[1..])
  }

  predicate AllNonEmpty(lines: seq<string>) {
    forall i :: 0 <= i < |lines| ==> lines[i] != ""
  }

  lemma {:induction false} JoinedSnoc(lines: seq<string>, line: string)
    requires line != "" && AllNonEmpty(lines)
    ensures Joined(lines + [line]) == (if Joined(lines) == "" then "" else Joined(lines) + ",") + line
    ensures Joined(lines) == "" <==> lines == []
    decreases |lines|
  {
    if lines == [] {
      assert lines + [line] == [line];
    } else {
      assert (lines + [line])[1..] == lines[1..] + [line];
      JoinedSnoc(lines[1..], line);
    }
  }

  lemma {:induction false} OnlyNonEmpty(lines: seq<string>)
    ensures AllNonEmpty(NonEmpty(lines))
    decreases |lines|
  {
    if lines != [] {
      OnlyNonEmpty(lines[1..]);
    }
  }

  lemma {:induction false} NonEmptySnoc(lines: seq<string>, line: string)
    ensures NonEmpty(lines + [line]) == if line == "" then NonEmpty(lines) else NonEmpty(lines) + [line]
    decreases |lines|
  {
    if lines == [] {
      assert lines + [line] == [line] && [line][1..] == [];
    } else {
      assert (lines + [line])[1..] == lines[1..] + [line];
      NonEmptySnoc(lines[1..], line);
    }
  }

  function WithElement(sofar: string, line: string): string {
    if line == "" then sofar else (if sofar == "" then "" else sofar + ",") + line
  }

  /** The array elements of the lines read so far. */
  function Elements(lines: seq<string>): string {
    Joined(NonEmpty(lines))
  }

  lemma ElementAdded(done: seq<string>, line: string)
    ensures Elements(done + [line]) == WithElement(Elements(done), line)
  {
    NonEmptySnoc(done, line);
    OnlyNonEmpty(done);
    if line != "" {
      JoinedSnoc(NonEmpty(done), line);
    }
  }

  method AppendElement(sofar: string, line: string) returns (result: string)
    ensures result == WithElement(sofar, line)
  {
    result := sofar;
    if line != "" {
      if result != "" {
        result := result + ",";
      }
      result := result + line;
    }
  }

  /** `result` joins the lines before `start`, and those of what is left are the blob's other lines. */
  ghost predicate JoinedTo(result: string, done: seq<string>, blob: string, start: nat)
    requires start <= |blob|
  {
    result == Elements(done) && done + SplitLines(blob[start..]) == SplitLines(blob)
  }

  lemma LineJoined(result: string, done: seq<string>, blob: string, start: nat)
    requires start <= |blob| && JoinedTo(result, done, blob, start)
    ensures var newline := NextNewline(blob, start);
            var line := blob[start..newline];
            var more := WithElement(result, line);
            if newline == |blob| then more == Elements(SplitLines(blob))
            else JoinedTo(more, done + [line], blob, newline + 1)
  {
    NextLine(done, blob, start);
    ElementAdded(done, blob[start..NextNewline(blob, start)]);
  }

  lemma AllJoined(result: string, done: seq<string>, blob: string)
    requires JoinedTo(result, done, blob, |blob|)
    ensures result == Elements(SplitLines(blob))
  {
    ElementAdded(done, "");
    assert blob[|blob|..] == "" && SplitLines("") == [""];
  }

  /** The blob's non-empty lines, in order, separated by commas. */
  method JoinLinesAsArrayElements(blob: string) returns (result: string)
    ensures result == Elements(SplitLines(blob))
  {
    result := "";
    ghost var done: seq<string> := [];
    var start := 0;
    assert blob[0..] == blob;
    while start < |blob|
      invariant 0 <= start <= |blob| && JoinedTo(result, done, blob, start)
      decreases |blob| - start
    {
      var newline := NextNewline(blob, start);
      LineJoined(result, done, blob, start);
      result := AppendElement(result, blob[start..newline]);
      if newline == |blob| {
        return;
      }
      done := done + [blob[start..newline]];
      start := newline + 1;
    }
    AllJoined(result, done, blob);
  }

  /** What a reader of both blobs gets: one array of all their lines, the older blob's first. */
  method ArrayOfLines(rotated: string, current: string) returns (result: string)
    ensures result == "[" + Joined(NonEmpty(SplitLines(rotated)) + NonEmpty(SplitLines(current))) + "]"
  {
    var older := JoinLinesAsArrayElements(rotated);
    var newer := JoinLinesAsArrayElements(current);
    result := "[";
    result := result + older;
    if older != "" && newer != "" {
      result := result + ",";
    }
    result := result + newer;
    result := result + "]";
    OnlyNonEmpty(SplitLines(rotated));
    OnlyNonEmpty(SplitLines(current));
    JoinedConcat(NonEmpty(SplitLines(rotated)), NonEmpty(SplitLines(current)));
  }

  lemma {:induction false} JoinedConcat(a: seq<string>, b: seq<string>)
    requires AllNonEmpty(a) && AllNonEmpty(b)
    ensures Joined(a + b) == Joined(a) + (if a != [] && b != [] then "," else "") + Joined(b)
    ensures (Joined(a) == "" <==> a == []) && (Joined(b) == "" <==> b == [])
    decreases |a|
  {
    if b != [] {
      assert b[0] != "" && Joined(b) != "";
    }
    if a == [] {
      assert a + b == b;
    } else {
      assert (a + b)[1..] == a[1..] + b;
      JoinedConcat(a[1..], b);
      if |a| == 1 && b != [] {
        assert a + b == [a[0]] + b;
      }
    }
  }

  lemma NextLine(done: seq<string>, blob: string, start: nat)
    requires start <= |blob|
    ensures var newline := NextNewline(blob, start);
            done + SplitLines(blob[start..]) ==
            if newline == |blob| then done + [blob[start..newline]]
            else done + [blob[start..newline]] + SplitLines(blob[newline + 1..])
  {
    var newline := NextNewline(blob, start);
    NextNewlineFrom(blob, start, newline);
    assert blob[start..][..newline - start] == blob[start..newline];
    if newline < |blob| {
      assert blob[start..][newline - start + 1..] == blob[newline + 1..];
    } else {
      assert blob[start..] == blob[start..newline];
    }
  }

  lemma {:induction false} NextNewlineFrom(blob: string, start: nat, newline: nat)
    requires start <= newline <= |blob|
    requires (forall i :: start <= i < newline ==> blob[i] != '\n') && (newline < |blob| ==> blob[newline] == '\n')
    ensures NextNewline(blob[start..], 0) == newline - start
  {
  }

  lemma SplitUnline(line: string, rest: string)
    requires IsLine(line)
    ensures SplitLines(line + "\n" + rest) == [line] + SplitLines(rest)
  {
    var blob := line + "\n" + rest;
    assert blob[0..] == blob;
    NextNewlineFrom(blob, 0, |line|);
    assert blob[..|line|] == line && blob[|line| + 1..] == rest;
  }

  /** Reading back what was stored: whatever lines were written, their array elements are those lines. */
  lemma {:induction false} StoredLinesReadBack(lines: seq<string>)
    requires forall i :: 0 <= i < |lines| ==> IsLine(lines[i])
    ensures NonEmpty(SplitLines(Unlines(lines))) == lines
    decreases |lines|
  {
    if lines == [] {
      assert SplitLines("") == [""] && [""][1..] == [];
    } else {
      SplitUnline(lines[0], Unlines(lines[1..]));
      StoredLinesReadBack(lines[1..]);
      var split := SplitLines(Unlines(lines));
      assert split[1..] == SplitLines(Unlines(lines[1..]));
    }
  }

  // ---- rotation ----

  datatype Blobs = Blobs(rotated: string, current: string)

  function WriteStep(b: Blobs, lines: string, cap: nat): Blobs {
    if |b.current + lines| > cap then Blobs(b.current, Trim(lines, cap)) else b.(current := b.current + lines)
  }

  function WriteAll(b: Blobs, batches: seq<string>, cap: nat): Blobs
    decreases |batches|
  {
    if batches == [] then b else WriteAll(WriteStep(b, batches[0], cap), batches[1..], cap)
  }

  function Concat(batches: seq<string>): string {
    if batches == [] then "" else batches[0] + Concat(batches[1..])
  }

  lemma ConcatHead(all: string, batches: seq<string>)
    requires batches != []
    ensures all + batches[0] + Concat(batches[1..]) == all + Concat(batches)
  {
  }

  ghost predicate SuffixOf(tail: string, text: string) {
    |tail| <= |text| && text[|text| - |tail|..] == tail
  }

  lemma {:induction false} TrimIsSuffix(blob: string, maxBytes: nat)
    ensures SuffixOf(Trim(blob, maxBytes), blob)
    decreases |blob|
  {
    var next := NextNewline(blob, 0) + 1;
    if |blob| > maxBytes && next < |blob| {
      TrimIsSuffix(blob[next..], maxBytes);
    }
  }

  ghost predicate Retained(b: Blobs, all: string, cap: nat) {
    var kept := b.rotated + b.current;
    SuffixOf(kept, all) && (|kept| < |all| ==> |kept| > cap)
  }

  /** As long as every batch fits the cap or is a single line, the two blobs hold the newest part of everything ever logged,
      with no gap, and once anything has been dropped they hold more than the cap. */
  lemma {:induction false} NewestIsRetained(b: Blobs, all: string, batches: seq<string>, cap: nat)
    requires Retained(b, all, cap) && AllFit(batches, cap)
    ensures Retained(WriteAll(b, batches, cap), all + Concat(batches), cap)
    decreases |batches|
  {
    if batches == [] {
      assert all + "" == all;
    } else {
      RetainedStep(b, all, batches[0], cap);
      NewestIsRetained(WriteStep(b, batches[0], cap), all + batches[0], batches[1..], cap);
      ConcatHead(all, batches);
    }
  }

  predicate AllFit(batches: seq<string>, cap: nat) {
    forall i :: 0 <= i < |batches| ==> FitsOrOneLine(batches[i], cap)
  }

  lemma SuffixAppend(tail: string, text: string, more: string)
    requires SuffixOf(tail, text)
    ensures SuffixOf(tail + more, text + more)
  {
  }

  lemma SuffixOfConcat(a: string, b: string, text: string)
    requires SuffixOf(a + b, text)
    ensures SuffixOf(b, text)
  {
    assert (a + b)[|a|..] == b;
  }

  lemma RetainedStep(b: Blobs, all: string, lines: string, cap: nat)
    requires Retained(b, all, cap) && FitsOrOneLine(lines, cap)
    ensures Retained(WriteStep(b, lines, cap), all + lines, cap)
  {
    if |b.current + lines| > cap {
      TrimKeepsAllIff(lines, cap);
      SuffixOfConcat(b.rotated, b.current, all);
      SuffixAppend(b.current, all, lines);
    } else {
      SuffixAppend(b.rotated + b.current, all, lines);
      assert b.rotated + b.current + lines == b.rotated + (b.current + lines);
    }
  }

  lemma CurrentStep(b: Blobs, all: string, lines: string, cap: nat)
    requires SuffixOf(b.current, all)
    ensures SuffixOf(WriteStep(b, lines, cap).current, all + lines)
  {
    var t := WriteStep(b, lines, cap);
    var more := all + lines;
    if |b.current + lines| > cap {
      TrimIsSuffix(lines, cap);
      assert more[|more| - |t.current|..] == lines[|lines| - |t.current|..];
    } else {
      assert more[|more| - |t.current|..] == all[|all| - |b.current|..] + lines;
    }
  }

  /** Whatever the batches, the current blob is the newest part of everything logged. */
  lemma {:induction false} CurrentIsNewest(b: Blobs, all: string, batches: seq<string>, cap: nat)
    requires SuffixOf(b.current, all)
    ensures SuffixOf(WriteAll(b, batches, cap).current, all + Concat(batches))
    decreases |batches|
  {
    if batches == [] {
      assert all + "" == all;
    } else {
      CurrentStep(b, all, batches[0], cap);
      CurrentIsNewest(WriteStep(b, batches[0], cap), all + batches[0], batches[1..], cap);
      ConcatHead(all, batches);
    }
  }

  /** What is stored is bounded: neither blob outgrows the cap but by holding a single line. */
  predicate Bounded(b: Blobs, cap: nat) {
    FitsOrOneLine(b.rotated, cap) && FitsOrOneLine(b.current, cap)
  }

  lemma {:induction false} TrimFits(blob: string, maxBytes: nat)
    ensures FitsOrOneLine(Trim(blob, maxBytes), maxBytes)
    decreases |blob|
  {
    var next := NextNewline(blob, 0) + 1;
    if |blob| > maxBytes && next < |blob| {
      TrimFits(blob[next..], maxBytes);
    }
  }

  /** Whatever is logged, the two blobs stay within the cap each, a single longer line apart; and a batch is
      appended to the current one for as long as the cap has room for it. */
  lemma {:induction false} FlashIsBounded(b: Blobs, batches: seq<string>, cap: nat)
    requires Bounded(b, cap)
    ensures Bounded(WriteAll(b, batches, cap), cap)
    ensures batches != [] && |b.current| + |batches[0]| <= cap ==>
              WriteStep(b, batches[0], cap) == Blobs(b.rotated, b.current + batches[0])
    decreases |batches|
  {
    if batches != [] {
      TrimFits(batches[0], cap);
      FlashIsBounded(WriteStep(b, batches[0], cap), batches[1..], cap);
    }
  }

  /** A batch of a single line: it holds no newline but a final one. */
  predicate OneLine(lines: string) {
    NextNewline(lines, 0) + 1 >= |lines|
  }

  /** A batch that trimming leaves whole. */
  predicate FitsOrOneLine(lines: string, cap: nat) {
    |lines| <= cap || OneLine(lines)
  }

  /** Trimming drops nothing exactly from a text that fits or is one line. */
  lemma TrimKeepsAllIff(blob: string, maxBytes: nat)
    ensures Trim(blob, maxBytes) == blob <==> FitsOrOneLine(blob, maxBytes)
  {
    if |blob| > maxBytes && !OneLine(blob) {
      TrimIsSuffix(blob[NextNewline(blob, 0) + 1..], maxBytes);
    }
  }

  /** The stretch of the log from `from` up to `to`. */
  ghost predicate Stretch(part: string, log: string, from: nat, to: nat) {
    from <= to <= |log| && part == log[from..to]
  }

  /** A rotation keeps two stretches of the log: the rotated blob ends where the batch began, the current
      one runs to the end. They meet, so that no line between them is lost, exactly when the batch fits
      the cap, is one line, or nothing came before it. */
  lemma OversizedBatch(b: Blobs, all: string, lines: string, cap: nat)
    requires SuffixOf(b.current, all) && |b.current + lines| > cap
    ensures var t := WriteStep(b, lines, cap);
            var log := all + lines;
            && |t.rotated| <= |all| && |t.current| <= |lines|
            && Stretch(t.rotated, log, |all| - |t.rotated|, |all|)
            && Stretch(t.current, log, |log| - |t.current|, |log|)
            && (t.rotated == "" || |log| - |t.current| == |all|
                <==> FitsOrOneLine(lines, cap) || b.current == "")
  {
    var t := WriteStep(b, lines, cap);
    var log := all + lines;
    TrimIsSuffix(lines, cap);
    TrimKeepsAllIff(lines, cap);
    assert log[|all| - |b.current|..|all|] == all[|all| - |b.current|..];
    assert log[|log| - |t.current|..] == lines[|lines| - |t.current|..];
    assert |t.current| == |lines| ==> t.current == lines[0..];
  }

  lemma OversizedBatchGap()
    ensures var b := WriteStep(Blobs("", "a\n"), "b\nc\n", 2);
            b == Blobs("a\n", "c\n") && !SuffixOf(b.rotated + b.current, "a\n" + "b\nc\n")
  {
    var lines := "b\nc\n";
    assert NextNewline(lines, 0) == 1;
    assert lines[2..] == "c\n";
    var kept := "a\n" + "c\n";
    assert kept[0] == 'a' && ("a\n" + lines)[2..][0] == 'b';
  }
}
