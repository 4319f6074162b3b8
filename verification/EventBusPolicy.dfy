/**
 The event-bus policy check: an indentation scanner over CloudFormation templates
 that collects block lists, and the comparison of what rules forward with what the
 central bus allows.
 */
module EventBusPolicy {
  import opened Common
  import opened Text

  function Indent(line: string): nat {
    LStripBlank(line);
    |line| - |LStrip(line)|
  }

  // ----- resource blocks

  predicate NameRun(text: string) {
    forall i :: 0 <= i < |text| ==> 'A' <= text[i] <= 'Z' || 'a' <= text[i] <= 'z' || '0' <= text[i] <= '9'
  }

  /** `^  [A-Za-z0-9]+:\s*$` */
  predicate IsHeader(line: string) {
    exists n :: 1 <= n < |line| - 2 && HeaderWith(line, n)
  }

  predicate HeaderWith(line: string, n: int)
    requires 1 <= n < |line| - 2
  {
    line[..2] == "  " && NameRun(line[2..2 + n]) && line[2 + n] == ':' && Blank(line[3 + n..])
  }

  function Heads(lines: seq<string>): (heads: seq<nat>)
    ensures forall j :: 0 <= j < |heads| ==> heads[j] < |lines| && IsHeader(lines[heads[j]])
    ensures forall j, k :: 0 <= j < k < |heads| ==> heads[j] < heads[k]
  {
    if lines == [] then []
    else
      var n := |lines| - 1;
      assert forall i :: 0 <= i < n ==> lines[..n][i] == lines[i];
      Heads(lines[..n]) + (if IsHeader(lines[n]) then [n] else [])
  }

  lemma {:induction false} HeadsAreAll(lines: seq<string>, i: nat)
    requires i < |lines| && IsHeader(lines[i])
    ensures i in Heads(lines)
  {
    hide IsHeader;
    if i < |lines| - 1 {
      HeadsAreAll(lines[..|lines| - 1], i);
    }
  }

  /** Each block runs from its header to the next one. */
  function ResourceBlocks(lines: seq<string>): seq<seq<string>> {
    var heads := Heads(lines);
    seq(|heads|, i requires 0 <= i < |heads| => lines[heads[i]..if i + 1 < |heads| then heads[i + 1] else |lines|])
  }

  lemma {:induction false} ConcatSlices(lines: seq<string>, heads: seq<nat>, blocks: seq<seq<string>>, end: nat, n: nat)
    requires n <= |heads| == |blocks| && end <= |lines|
    requires forall j, k :: 0 <= j < k < |heads| ==> heads[j] < heads[k]
    requires forall j :: 0 <= j < |heads| ==> heads[j] <= end
    requires forall j :: 0 <= j < |heads| ==>
               blocks[j] == lines[heads[j]..if j + 1 < |heads| then heads[j + 1] else end]
    ensures Concat(blocks[..n]) == if n == 0 then [] else lines[heads[0]..if n < |heads| then heads[n] else end]
  {
    if n > 0 {
      ConcatSlices(lines, heads, blocks, end, n - 1);
      assert blocks[..n][..n - 1] == blocks[..n - 1];
      if n > 1 {
        assert heads[0] < heads[n - 1];
        assert lines[heads[0]..heads[n - 1]] + blocks[n - 1] == lines[heads[0]..if n < |heads| then heads[n] else end];
      }
    }
  }

  /** Block `j` starts with a header and holds no other. */
  lemma BlockHasOneHeader(lines: seq<string>, j: nat)
    requires j < |Heads(lines)|
    ensures var block := ResourceBlocks(lines)[j];
            block != [] && IsHeader(block[0]) && forall k :: 0 < k < |block| ==> !IsHeader(block[k])
  {
    hide IsHeader, Heads;
    var heads, block := Heads(lines), ResourceBlocks(lines)[j];
    assert heads[j] < |lines| && block[0] == lines[heads[j]];
    forall k | 0 < k < |block| ensures !IsHeader(block[k]) {
      assert block[k] == lines[heads[j] + k];
      BetweenHeads(heads, j, heads[j] + k);
      if IsHeader(lines[heads[j] + k]) {
        HeadsAreAll(lines, heads[j] + k);
      }
    }
  }

  lemma NoHeaderBefore(lines: seq<string>, i: nat)
    requires i < |lines| && (Heads(lines) != [] ==> i < Heads(lines)[0])
    ensures !IsHeader(lines[i])
  {
    hide IsHeader;
    if IsHeader(lines[i]) {
      HeadsAreAll(lines, i);
    }
  }

  /** The blocks are the file from its first header on, cut before every header: each
      starts with a header, holds no other, and together they lose nothing. */
  lemma BlocksPartitionTheFile(lines: seq<string>)
    ensures Concat(ResourceBlocks(lines)) == if Heads(lines) == [] then [] else lines[Heads(lines)[0]..]
    ensures forall i :: 0 <= i < (if Heads(lines) == [] then |lines| else Heads(lines)[0]) ==> !IsHeader(lines[i])
    ensures forall j :: 0 <= j < |ResourceBlocks(lines)| ==>
              var block := ResourceBlocks(lines)[j];
              block != [] && IsHeader(block[0]) && forall k :: 0 < k < |block| ==> !IsHeader(block[k])
  {
    hide *;
    BlocksConcat(lines);
    forall i | 0 <= i < (if Heads(lines) == [] then |lines| else Heads(lines)[0]) ensures !IsHeader(lines[i]) {
      HeadsInside(lines);
      NoHeaderBefore(lines, i);
    }
    forall j | 0 <= j < |ResourceBlocks(lines)|
      ensures var block := ResourceBlocks(lines)[j];
              block != [] && IsHeader(block[0]) && forall k :: 0 < k < |block| ==> !IsHeader(block[k])
    {
      BlockHasOneHeader(lines, j);
    }
  }

  lemma HeadsInside(lines: seq<string>)
    ensures Heads(lines) != [] ==> Heads(lines)[0] < |lines|
  {
  }

  lemma BlocksConcat(lines: seq<string>)
    ensures |ResourceBlocks(lines)| == |Heads(lines)|
    ensures Concat(ResourceBlocks(lines)) == if Heads(lines) == [] then [] else lines[Heads(lines)[0]..]
  {
    hide IsHeader, Heads, Concat;
    var heads, blocks := Heads(lines), ResourceBlocks(lines);
    ConcatSlices(lines, heads, blocks, |lines|, |heads|);
    assert blocks[..|blocks|] == blocks;
  }

  lemma BetweenHeads(heads: seq<nat>, j: nat, i: nat)
    requires forall a, b :: 0 <= a < b < |heads| ==> heads[a] < heads[b]
    requires j < |heads| && heads[j] < i && (j + 1 < |heads| ==> i < heads[j + 1])
    ensures i !in heads
  {
  }

  // ----- nested_block

  predicate EndsBlock(line: string, base: nat) {
    Strip(line) != "" && Indent(line) <= base
  }

  /** Where the run of blank or deeper lines from `from` on ends. */
  function RunEnd(lines: seq<string>, from: nat, base: nat): (end: nat)
    requires from <= |lines|
    ensures from <= end <= |lines|
    ensures forall i :: from <= i < end ==> !EndsBlock(lines[i], base)
    ensures end < |lines| ==> EndsBlock(lines[end], base)
    decreases |lines| - from
  {
    if from == |lines| || EndsBlock(lines[from], base) then from else RunEnd(lines, from + 1, base)
  }

  function FirstLine(lines: seq<string>, text: string, from: nat): (found: Option<nat>)
    requires from <= |lines|
    ensures found.Some? ==> from <= found.value < |lines| && Strip(lines[found.value]) == text
                            && forall i :: from <= i < found.value ==> Strip(lines[i]) != text
    ensures found.None? ==> forall i :: from <= i < |lines| ==> Strip(lines[i]) != text
    decreases |lines| - from
  {
    if from == |lines| then None
    else if Strip(lines[from]) == text then Some(from) else FirstLine(lines, text, from + 1)
  }

  function NestedBlock(lines: seq<string>, key: string): seq<string> {
    match FirstLine(lines, key + ":", 0)
    case None => []
    case Some(start) => lines[start + 1..RunEnd(lines, start + 1, Indent(lines[start]))]
  }

  method ReadNestedBlock(lines: seq<string>, key: string) returns (block: seq<string>)
    ensures block == NestedBlock(lines, key)
  {
    hide Strip, Indent;
    for start := 0 to |lines|
      invariant FirstLine(lines, key + ":", start) == FirstLine(lines, key + ":", 0)
    {
      if Strip(lines[start]) != key + ":" {
        continue;
      }
      var base, end := Indent(lines[start]), start + 1;
      while end < |lines|
        invariant start + 1 <= end <= |lines|
        invariant RunEnd(lines, end, base) == RunEnd(lines, start + 1, base)
      {
        if Strip(lines[end]) != "" && Indent(lines[end]) <= base {
          break;
        }
        end := end + 1;
      }
      return lines[start + 1..end];
    }
    block := [];
  }

  /** The block is the maximal deeper run after the first line naming the key. */
  lemma NestedBlockIsMaximal(before: seq<string>, head: string, body: seq<string>, after: seq<string>, key: string)
    requires forall i :: 0 <= i < |before| ==> Strip(before[i]) != key + ":"
    requires Strip(head) == key + ":"
    requires forall i :: 0 <= i < |body| ==> !EndsBlock(body[i], Indent(head))
    requires after == [] || EndsBlock(after[0], Indent(head))
    ensures NestedBlock(before + [head] + body + after, key) == body
  {
    hide Strip, Indent, EndsBlock;
    var lines, s := before + [head] + body + after, |before|;
    assert forall i :: 0 <= i < s ==> lines[i] == before[i];
    assert lines[s] == head;
    assert FirstLine(lines, key + ":", 0) == Some(s);
    var end := RunEnd(lines, s + 1, Indent(head));
    assert forall i :: 0 <= i < |body| ==> lines[s + 1 + i] == body[i];
    if after != [] {
      assert lines[s + 1 + |body|] == after[0];
    }
    assert lines[s + 1..s + 1 + |body|] == body;
  }

  /** Without such a line there is no block. */
  lemma NoNestedBlock(lines: seq<string>, key: string)
    requires forall i :: 0 <= i < |lines| ==> Strip(lines[i]) != key + ":"
    ensures NestedBlock(lines, key) == []
  {
  }

  // ----- list_values

  predicate IsQuote(c: char) {
    c == '\'' || c == '"'
  }

  function LUnquote(text: string): string {
    if text != [] && IsQuote(text[0]) then LUnquote(text[1..]) else text
  }

  function RUnquote(text: string): string {
    if text != [] && IsQuote(text[|text| - 1]) then RUnquote(text[..|text| - 1]) else text
  }

  /** `strip("'\"")` */
  function Unquote(text: string): string {
    RUnquote(LUnquote(text))
  }

  /** `fullmatch(key\s*:(.*))`: what follows the colon. */
  function KeyLine(line: string, key: string): Option<string> {
    if !StartsWith(line, key) then None
    else
      var rest := LStrip(line[|key|..]);
      if StartsWith(rest, ":") then Some(rest[1..]) else None
  }

  lemma KeyLineIff(line: string, key: string, rest: string)
    ensures KeyLine(line, key) == Some(rest) <==> exists gap :: Blank(gap) && line == key + gap + ":" + rest
  {
    hide LStrip, Blank, KeyLine;
    if KeyLine(line, key) == Some(rest) {
      var gap := KeyLineSplits(line, key, rest);
    }
    if gap :| Blank(gap) && line == key + gap + ":" + rest {
      KeyLineReads(key, gap, rest);
    }
  }

  lemma KeyLineSplits(line: string, key: string, rest: string) returns (gap: string)
    requires KeyLine(line, key) == Some(rest)
    ensures Blank(gap) && line == key + gap + ":" + rest
  {
    hide LStrip, Blank;
    var tail := line[|key|..];
    LStripIs(tail);
    gap := tail[..|tail| - |LStrip(tail)|];
    assert line == key + tail && tail == gap + LStrip(tail) && LStrip(tail) == ":" + rest;
    assert key + (gap + (":" + rest)) == key + gap + ":" + rest;
  }

  lemma KeyLineReads(key: string, gap: string, rest: string)
    requires Blank(gap)
    ensures KeyLine(key + gap + ":" + rest, key) == Some(rest)
  {
    hide LStrip, Blank;
    var line := key + gap + ":" + rest;
    assert line[..|key|] == key && line[|key|..] == gap + (":" + rest);
    LStripBlanks(gap, ":" + rest);
    assert (":" + rest)[..1] == ":" && (":" + rest)[1..] == rest;
  }

  lemma {:induction false} LStripBlanks(gap: string, text: string)
    requires Blank(gap) && text != "" && !IsSpace(text[0])
    ensures LStrip(gap + text) == text
  {
    if gap == "" {
      assert gap + text == text;
    } else {
      assert (gap + text)[0] == gap[0] && (gap + text)[1..] == gap[1..] + text;
      LStripBlanks(gap[1..], text);
    }
  }

  /** Indentation is the number of white-space characters a line starts with. */
  lemma IndentIs(line: string)
    ensures Indent(line) <= |line| && Blank(line[..Indent(line)])
    ensures Indent(line) < |line| ==> !IsSpace(line[Indent(line)])
  {
    LStripIs(line);
  }

  predicate Quotes(text: string) {
    forall i :: 0 <= i < |text| ==> text[i] == '\'' || text[i] == '"'
  }

  /** Any run of either quote goes from both ends, and only that. */
  lemma UnquoteIs(text: string)
    ensures exists a, b :: Quotes(a) && Quotes(b) && text == a + Unquote(text) + b
    ensures Unquote(text) != "" ==> !IsQuote(Unquote(text)[0]) && !IsQuote(Unquote(text)[|Unquote(text)| - 1])
  {
    var inner := LUnquote(text);
    LUnquoteIs(text);
    RUnquoteIs(inner);
    var n := |text| - |inner|;
    assert text == text[..n] + Unquote(text) + inner[|Unquote(text)|..];
  }

  lemma {:induction false} LUnquoteIs(text: string)
    ensures var n := |text| - |LUnquote(text)|;
            && 0 <= n <= |text| && text[n..] == LUnquote(text) && Quotes(text[..n])
            && (n < |text| ==> !IsQuote(text[n]))
  {
    if text != [] && IsQuote(text[0]) {
      LUnquoteIs(text[1..]);
      var n := |text| - |LUnquote(text)|;
      assert text[..n] == [text[0]] + text[1..][..n - 1];
    }
  }

  lemma {:induction false} RUnquoteIs(text: string)
    ensures var n := |RUnquote(text)|;
            && n <= |text| && text[..n] == RUnquote(text) && Quotes(text[n..])
            && (n > 0 ==> !IsQuote(text[n - 1]))
  {
    if text != [] && IsQuote(text[|text| - 1]) {
      var m := |text| - 1;
      RUnquoteIs(text[..m]);
      var n := |RUnquote(text)|;
      assert text[n..] == text[..m][n..] + [text[m]];
    }
  }

  function IsItem(line: string, base: nat): bool {
    StartsWith(Strip(line), "- ") && Indent(line) >= base
  }

  function ItemValue(line: string): string
    requires StartsWith(Strip(line), "- ")
  {
    Unquote(Strip(line)[2..])
  }

  /** An item is a dash, a blank and its text, not less deep than the key; its value is the text
      without quotes. */
  lemma ItemIs(line: string, base: nat)
    ensures IsItem(line, base) <==> Indent(line) >= base && exists raw :: Strip(line) == "- " + raw
    ensures forall raw :: Strip(line) == "- " + raw ==> StartsWith(Strip(line), "- ") && ItemValue(line) == Unquote(raw)
  {
    hide Strip, Indent, Unquote;
    if StartsWith(Strip(line), "- ") {
      assert Strip(line) == "- " + Strip(line)[2..];
    }
    forall raw | Strip(line) == "- " + raw
      ensures StartsWith(Strip(line), "- ") && ItemValue(line) == Unquote(raw)
    {
      assert Strip(line)[..2] == "- " && Strip(line)[2..] == raw;
    }
  }

  /** The items after a key at indentation `base`. */
  function Items(lines: seq<string>, base: nat): set<string> {
    if lines == [] then {}
    else if IsItem(lines[0], base) then {ItemValue(lines[0])} + Items(lines[1..], base)
    else if EndsBlock(lines[0], base) then {}
    else Items(lines[1..], base)
  }

  /** Nothing stands for the exception on an inline value. */
  function ListValues(lines: seq<string>, key: string): Option<set<string>> {
    if lines == [] then Some({})
    else
      match KeyLine(Strip(lines[0]), key)
      case None => ListValues(lines[1..], key)
      case Some(rest) => if Strip(rest) != "" then None else Some(Items(lines[1..], Indent(lines[0])))
  }

  method ReadListValues(lines: seq<string>, key: string) returns (values: Option<set<string>>)
    ensures values == ListValues(lines, key)
  {
    hide Strip, Indent, KeyLine, EndsBlock, ItemValue;
    for start := 0 to |lines|
      invariant ListValues(lines[start..], key) == ListValues(lines, key)
    {
      assert lines[start..][1..] == lines[start + 1..];
      var rest := KeyLine(Strip(lines[start]), key);
      if rest.None? {
        continue;
      }
      if Strip(rest.value) != "" {
        return None;
      }
      var base, found := Indent(lines[start]), {};
      for i := start + 1 to |lines|
        invariant found + Items(lines[i..], base) == Items(lines[start + 1..], base)
      {
        assert lines[i..][1..] == lines[i + 1..];
        if IsItem(lines[i], base) {
          found := found + {ItemValue(lines[i])};
          continue;
        }
        if EndsBlock(lines[i], base) {
          break;
        }
      }
      return Some(found);
    }
    values := Some({});
  }

  /** Where the list after a key ends: at the first line that is no item and not deeper. */
  predicate ListEnd(lines: seq<string>, base: nat, end: nat) {
    && end <= |lines|
    && (forall i :: 0 <= i < end ==> IsItem(lines[i], base) || !EndsBlock(lines[i], base))
    && (end < |lines| ==> !IsItem(lines[end], base) && EndsBlock(lines[end], base))
  }

  predicate ItemAt(lines: seq<string>, base: nat, i: nat, v: string)
    requires i < |lines|
  {
    IsItem(lines[i], base) && ItemValue(lines[i]) == v
  }

  /** The values read are those of the items up to there, whatever lines stand between. */
  lemma {:induction false} ItemsAre(lines: seq<string>, base: nat, end: nat)
    requires ListEnd(lines, base, end)
    ensures forall v :: v in Items(lines, base) <==>
              exists i :: 0 <= i < end && ItemAt(lines, base, i, v)
  {
    hide IsItem, EndsBlock, ItemValue, ItemAt;
    if end > 0 {
      ItemsAre(lines[1..], base, end - 1);
      assert lines == [lines[0]] + lines[1..];
      forall v ensures v in Items(lines, base) <==> exists i :: 0 <= i < end && ItemAt(lines, base, i, v) {
        OneMoreItem(lines, base, end, v);
      }
    }
  }

  lemma OneMoreItem(lines: seq<string>, base: nat, end: nat, v: string)
    requires 0 < end <= |lines| && (IsItem(lines[0], base) || !EndsBlock(lines[0], base))
    requires v in Items(lines[1..], base) <==> exists i :: 0 <= i < end - 1 && ItemAt(lines[1..], base, i, v)
    ensures v in Items(lines, base) <==> exists i :: 0 <= i < end && ItemAt(lines, base, i, v)
  {
    hide IsItem, EndsBlock, ItemValue;
    assert v in Items(lines, base) <==> ItemAt(lines, base, 0, v) || v in Items(lines[1..], base);
    if i :| 0 <= i < end - 1 && ItemAt(lines[1..], base, i, v) {
      assert ItemAt(lines, base, i + 1, v);
    }
    if i :| 0 <= i < end && ItemAt(lines, base, i, v) && i > 0 {
      assert ItemAt(lines[1..], base, i - 1, v);
    }
  }

  // ----- printing a block sequence

  /** Where `splitlines` cuts. */
  predicate IsLineBreak(c: char) {
    '\n' <= c <= '\r' || '\U{1C}' <= c <= '\U{1E}' || c in ['\U{85}', '\U{2028}', '\U{2029}']
  }

  /** A value that needs no escaping: one line that neither starts nor ends with white space
      or a quote. */
  predicate Clean(v: string) {
    && v != "" && Trim(v) && !IsQuote(v[0]) && !IsQuote(v[|v| - 1])
    && forall c :: c in v ==> !IsLineBreak(c)
  }

  datatype Style = Style(extra: nat, quote: string)

  /** YAML 1.2.2: an entry deeper than its key (section 8.2.1), or at the same
      indentation when `extra` is 0 (section 8.2.3), plain or in either quotes. */
  predicate StyleOk(style: Style) {
    style.quote in ["", "'", "\""]
  }

  function ItemLine(indent: nat, style: Style, v: string): string {
    Spaces(indent + style.extra) + ("- " + style.quote + v + style.quote)
  }

  function ItemLines(indent: nat, style: Style, values: seq<string>): seq<string> {
    seq(|values|, i requires 0 <= i < |values| => ItemLine(indent, style, values[i]))
  }

  function KeyHead(indent: nat, key: string): string {
    Spaces(indent) + (key + ":")
  }

  /** Lines after which a list at this indentation is over. */
  predicate EndsList(lines: seq<string>, base: nat) {
    lines == [] ||
    (if Strip(lines[0]) == "" then EndsList(lines[1..], base)
     else Indent(lines[0]) <= base && !IsItem(lines[0], base))
  }

  lemma ItemLineReads(indent: nat, style: Style, v: string)
    requires StyleOk(style) && Clean(v)
    ensures IsItem(ItemLine(indent, style, v), indent) && ItemValue(ItemLine(indent, style, v)) == v
  {
    var text := "- " + style.quote + v + style.quote;
    assert text[0] == '-' && text[|text| - 1] == (if style.quote == "" then v[|v| - 1] else style.quote[0]);
    StripIndented(indent + style.extra, text);
    SpacesLength(indent + style.extra);
    assert text[2..] == style.quote + v + style.quote;
    UnquoteQuoted(style.quote, v);
  }

  lemma UnquoteQuoted(quote: string, v: string)
    requires quote in ["", "'", "\""] && Clean(v)
    ensures Unquote(quote + v + quote) == v
  {
    var text := quote + v + quote;
    if quote != "" {
      assert text[1..] == v + quote;
      assert (v + quote)[..|v|] == v;
      assert LUnquote(text) == LUnquote(v + quote) == v + quote;
      assert RUnquote(v + quote) == RUnquote(v) == v;
    } else {
      assert text == v;
    }
  }

  lemma {:induction false} EndsListHasNoItems(lines: seq<string>, base: nat)
    requires EndsList(lines, base)
    ensures Items(lines, base) == {}
  {
    hide Strip, Indent, ItemValue;
    if lines != [] && Strip(lines[0]) == "" {
      EndsListHasNoItems(lines[1..], base);
    }
  }

  lemma {:induction false} ItemLinesRead(indent: nat, style: Style, values: seq<string>, after: seq<string>)
    requires StyleOk(style) && (forall v :: v in values ==> Clean(v)) && EndsList(after, indent)
    ensures Items(ItemLines(indent, style, values) + after, indent) == set v | v in values
  {
    hide IsItem, ItemValue, ItemLine, EndsBlock, Clean;
    var lines := ItemLines(indent, style, values) + after;
    if values == [] {
      assert lines == after;
      EndsListHasNoItems(after, indent);
    } else {
      assert values[0] in values;
      ItemLineReads(indent, style, values[0]);
      assert lines[0] == ItemLine(indent, style, values[0]);
      assert lines[1..] == ItemLines(indent, style, values[1..]) + after;
      ItemLinesRead(indent, style, values[1..], after);
      assert (set v | v in values) == {values[0]} + set v | v in values[1..];
    }
  }

  predicate NoKey(lines: seq<string>, key: string) {
    forall i :: 0 <= i < |lines| ==> KeyLine(Strip(lines[i]), key).None?
  }

  lemma {:induction false} SkipOtherLines(before: seq<string>, rest: seq<string>, key: string)
    requires NoKey(before, key)
    ensures ListValues(before + rest, key) == ListValues(rest, key)
  {
    hide KeyLine, Strip, Indent, Items;
    if before == [] {
      assert before + rest == rest;
    } else {
      assert (before + rest)[0] == before[0] && (before + rest)[1..] == before[1..] + rest;
      SkipOtherLines(before[1..], rest, key);
    }
  }

  lemma KeyHeadReads(indent: nat, key: string)
    requires key != "" && Trim(key)
    ensures KeyLine(Strip(KeyHead(indent, key)), key) == Some("") && Indent(KeyHead(indent, key)) == indent
    ensures Strip(KeyHead(indent, key)) == key + ":"
  {
    var text := key + ":";
    StripIndented(indent, text);
    SpacesLength(indent);
    assert text[..|key|] == key && text[|key|..] == ":";
    assert LStrip(":") == ":" && ":"[1..] == "";
    assert text[|text| - 1] == ':' && text[0] == key[0];
  }

  /** Round trip: any list of clean values, printed under its key at any indentation, in
      either sequence form and any quoting, is read back as the set of its values,
      whatever unrelated lines come before and whatever ends the list. */
  lemma PrintedListReadsBack(before: seq<string>, indent: nat, key: string, style: Style, values: seq<string>,
                             after: seq<string>)
    requires key != "" && Trim(key) && StyleOk(style) && forall v :: v in values ==> Clean(v)
    requires NoKey(before, key) && EndsList(after, indent)
    ensures ListValues(before + [KeyHead(indent, key)] + ItemLines(indent, style, values) + after, key) ==
            Some(set v | v in values)
  {
    hide KeyHead, Strip, Indent, KeyLine, Items, ItemLines, Clean, EndsList;
    var head, items := KeyHead(indent, key), ItemLines(indent, style, values);
    var rest := [head] + (items + after);
    assert before + [head] + items + after == before + rest;
    SkipOtherLines(before, rest, key);
    KeyHeadReads(indent, key);
    assert rest[0] == head && rest[1..] == items + after;
    assert Strip("") == "" by { StripBlank(""); }
    ItemLinesRead(indent, style, values, after);
  }

  // ----- contracts of one rule, and of all rules

  datatype Contract = Contract(sources: set<string>, types: set<string>)

  /** Nothing stands for the `ValueError`: an inline value, or a missing or empty list. */
  function RuleContract(resource: seq<string>): Option<Contract> {
    var pattern := NestedBlock(resource, "EventPattern");
    match (ListValues(pattern, "source"), ListValues(pattern, "detail-type"))
    case (Some(sources), Some(types)) => if sources == {} || types == {} then None else Some(Contract(sources, types))
    case _ => None
  }

  /** A printed rule is read back exactly: both lists inside the event pattern, any other
      lines around them, and everything else of the resource outside. */
  lemma PrintedRuleReadsBack(before: seq<string>, base: nat, lead: seq<string>, sourceIndent: nat,
                             sourceStyle: Style, sources: seq<string>,
                             between: seq<string>, typeIndent: nat, typeStyle: Style, types: seq<string>,
                             trail: seq<string>, after: seq<string>)
    requires forall i :: 0 <= i < |before| ==> Strip(before[i]) != "EventPattern:"
    requires StyleOk(sourceStyle) && StyleOk(typeStyle)
    requires sources != [] && forall v :: v in sources ==> Clean(v)
    requires types != [] && forall v :: v in types ==> Clean(v)
    requires var sourceLines := [KeyHead(sourceIndent, "source")] + ItemLines(sourceIndent, sourceStyle, sources);
             var typeLines := [KeyHead(typeIndent, "detail-type")] + ItemLines(typeIndent, typeStyle, types);
             && NoKey(lead, "source") && EndsList(between + typeLines + trail, sourceIndent)
             && NoKey(lead + sourceLines + between, "detail-type") && EndsList(trail, typeIndent)
             && (forall line :: line in lead + sourceLines + between + typeLines + trail ==> !EndsBlock(line, base))
             && (after == [] || EndsBlock(after[0], base))
    ensures var sourceLines := [KeyHead(sourceIndent, "source")] + ItemLines(sourceIndent, sourceStyle, sources);
            var typeLines := [KeyHead(typeIndent, "detail-type")] + ItemLines(typeIndent, typeStyle, types);
            var body := lead + sourceLines + between + typeLines + trail;
            RuleContract(before + [KeyHead(base, "EventPattern")] + body + after)
            == Some(Contract(set v | v in sources, set v | v in types))
  {
    hide *;
    var sourceLines := [KeyHead(sourceIndent, "source")] + ItemLines(sourceIndent, sourceStyle, sources);
    var typeLines := [KeyHead(typeIndent, "detail-type")] + ItemLines(typeIndent, typeStyle, types);
    var body := lead + sourceLines + between + typeLines + trail;
    PatternKeys();
    KeyHeadReads(base, "EventPattern");
    assert "EventPattern:" == "EventPattern" + ":";
    NestedBlockIsMaximal(before, KeyHead(base, "EventPattern"), body, after, "EventPattern");
    PrintedListReadsBack(lead, sourceIndent, "source", sourceStyle, sources, between + typeLines + trail);
    assert body == lead + [KeyHead(sourceIndent, "source")] + ItemLines(sourceIndent, sourceStyle, sources)
                   + (between + typeLines + trail);
    PrintedListReadsBack(lead + sourceLines + between, typeIndent, "detail-type", typeStyle, types, trail);
    assert body == (lead + sourceLines + between) + [KeyHead(typeIndent, "detail-type")]
                   + ItemLines(typeIndent, typeStyle, types) + trail;
    ValuesNonempty(sources);
    ValuesNonempty(types);
    ContractOf(before + [KeyHead(base, "EventPattern")] + body + after, body, set v | v in sources, set v | v in types);
  }

  lemma ValuesNonempty(values: seq<string>)
    requires values != []
    ensures (set v | v in values) != {}
  {
    var all := set v | v in values;
    assert values[0] in values;
    assert values[0] in all;
  }

  lemma PatternKeys()
    ensures Trim("EventPattern") && Trim("source") && Trim("detail-type")
  {
  }

  lemma ContractOf(resource: seq<string>, body: seq<string>, sources: set<string>, types: set<string>)
    requires NestedBlock(resource, "EventPattern") == body && sources != {} && types != {}
    requires ListValues(body, "source") == Some(sources) && ListValues(body, "detail-type") == Some(types)
    ensures RuleContract(resource) == Some(Contract(sources, types))
  {
  }

  /** The searched texts contain no line break, so they occur in the joined block exactly
      when they occur in one of its lines. */
  predicate Mentions(block: seq<string>, text: string) {
    exists i :: 0 <= i < |block| && HasText(block[i], text)
  }

  predicate Forwards(block: seq<string>) {
    Mentions(block, "EventPattern:") && Mentions(block, "AutomationEventBusName")
  }

  /** A rule forwards exactly if some line of its block has the pattern's key and some line the
      central bus's name. */
  lemma ForwardsIff(block: seq<string>)
    ensures Forwards(block) <==>
            && (exists i :: 0 <= i < |block| && HasText(block[i], "EventPattern:"))
            && (exists i :: 0 <= i < |block| && HasText(block[i], "AutomationEventBusName"))
  {
  }

  /** A rule is bad when its pattern gives a list inline, does not give it, or gives it empty. */
  lemma BadRule(resource: seq<string>, key: string)
    requires key == "source" || key == "detail-type"
    requires var pattern := NestedBlock(resource, "EventPattern");
             NoKey(pattern, key) || ListValues(pattern, key) == None || ListValues(pattern, key) == Some({})
    ensures RuleContract(resource).None?
  {
    hide ListValues, NestedBlock, NoKey;
    var pattern := NestedBlock(resource, "EventPattern");
    if NoKey(pattern, key) {
      SkipOtherLines(pattern, [], key);
      assert pattern + [] == pattern;
      assert ListValues([], key) == Some({}) by { NoLines(key); }
    }
  }

  lemma NoLines(key: string)
    ensures ListValues([], key) == Some({})
  {
  }

  /** An inline value on the key's line is refused. */
  lemma InlineValueRaises(before: seq<string>, line: string, key: string, rest: string, after: seq<string>)
    requires NoKey(before, key) && KeyLine(Strip(line), key) == Some(rest) && Strip(rest) != ""
    ensures ListValues(before + [line] + after, key).None?
  {
    hide KeyLine, Strip, Items, Indent;
    assert before + [line] + after == before + ([line] + after);
    SkipOtherLines(before, [line] + after, key);
    assert ([line] + after)[0] == line;
  }

  /** What the rules among the blocks forward together; nothing if one of them is bad. */
  function Forwarded(blocks: seq<seq<string>>): Option<Contract> {
    if blocks == [] then Some(Contract({}, {}))
    else
      var n := |blocks| - 1;
      match Forwarded(blocks[..n])
      case None => None
      case Some(c) =>
        if !Forwards(blocks[n]) then Some(c)
        else
          match RuleContract(blocks[n])
          case None => None
          case Some(r) => Some(Contract(c.sources + r.sources, c.types + r.types))
  }

  lemma {:induction false} ForwardedIsUnion(blocks: seq<seq<string>>)
    ensures Forwarded(blocks).Some? <==>
            forall i :: 0 <= i < |blocks| && Forwards(blocks[i]) ==> RuleContract(blocks[i]).Some?
    ensures Forwarded(blocks).Some? ==>
              && (forall s :: s in Forwarded(blocks).value.sources <==>
                    exists i :: 0 <= i < |blocks| && Forwards(blocks[i]) && s in RuleContract(blocks[i]).value.sources)
              && (forall t :: t in Forwarded(blocks).value.types <==>
                    exists i :: 0 <= i < |blocks| && Forwards(blocks[i]) && t in RuleContract(blocks[i]).value.types)
  {
    hide RuleContract, Forwards;
    if blocks != [] {
      var n := |blocks| - 1;
      var before := blocks[..n];
      assert forall i :: 0 <= i < n ==> before[i] == blocks[i];
      ForwardedIsUnion(before);
    }
  }

  /** The first block headed `EventBusPolicy:`. */
  function PolicyBlock(blocks: seq<seq<string>>): Option<seq<string>> {
    if blocks == [] then None
    else if blocks[0] != [] && Strip(blocks[0][0]) == "EventBusPolicy:" then Some(blocks[0])
    else PolicyBlock(blocks[1..])
  }

  function Allowed(blocks: seq<seq<string>>): Option<Contract> {
    match PolicyBlock(blocks)
    case None => None
    case Some(block) =>
      match (ListValues(block, "events:source"), ListValues(block, "events:detail-type"))
      case (Some(sources), Some(types)) => Some(Contract(sources, types))
      case _ => None
  }

  /** Nothing is allowed without a block of that head. */
  lemma {:induction false} NoPolicyNothingAllowed(blocks: seq<seq<string>>)
    requires forall b :: b in blocks ==> b == [] || Strip(b[0]) != "EventBusPolicy:"
    ensures Allowed(blocks).None?
  {
    hide Strip;
    if blocks != [] {
      NoPolicyNothingAllowed(blocks[1..]);
    }
  }

  lemma {:induction false} FirstPolicyBlock(before: seq<seq<string>>, block: seq<string>, after: seq<seq<string>>)
    requires forall b :: b in before ==> b == [] || Strip(b[0]) != "EventBusPolicy:"
    requires block != [] && Strip(block[0]) == "EventBusPolicy:"
    ensures PolicyBlock(before + [block] + after) == Some(block)
  {
    hide Strip;
    var blocks := before + [block] + after;
    if before != [] {
      assert blocks[0] == before[0] && blocks[1..] == before[1..] + [block] + after;
      FirstPolicyBlock(before[1..], block, after);
    } else {
      assert blocks[0] == block;
    }
  }

  /** The policy as it is printed: its head, other lines around, and the two lists under their
      keys, in either order. */
  function PolicyLines(head: string, lead: seq<string>, first: seq<string>, between: seq<string>, second: seq<string>,
                       trail: seq<string>): seq<string> {
    [head] + lead + first + between + second + trail
  }

  function PrintedList(indent: nat, key: string, style: Style, values: seq<string>): seq<string> {
    [KeyHead(indent, key)] + ItemLines(indent, style, values)
  }

  lemma PolicyListReads(before: seq<string>, indent: nat, key: string, style: Style, values: seq<string>,
                        after: seq<string>)
    requires key == "events:source" || key == "events:detail-type"
    requires StyleOk(style) && (forall v :: v in values ==> Clean(v)) && NoKey(before, key) && EndsList(after, indent)
    ensures ListValues(before + PrintedList(indent, key, style, values) + after, key) == Some(set v | v in values)
  {
    hide ListValues, KeyHead, ItemLines, Clean, NoKey, EndsList;
    assert Trim("events:source") && Trim("events:detail-type");
    PrintedListReadsBack(before, indent, key, style, values, after);
    assert before + PrintedList(indent, key, style, values) + after ==
           before + [KeyHead(indent, key)] + ItemLines(indent, style, values) + after;
  }

  /** The sources and the detail types of a printed policy, each in its place, when the
      sources come first. */
  lemma SourcesFirst(head: string, lead: seq<string>, sourceIndent: nat, sourceStyle: Style, sources: seq<string>,
                     between: seq<string>, typeIndent: nat, typeStyle: Style, types: seq<string>, trail: seq<string>)
    requires StyleOk(sourceStyle) && StyleOk(typeStyle)
    requires (forall v :: v in sources ==> Clean(v)) && (forall v :: v in types ==> Clean(v))
    requires var s := PrintedList(sourceIndent, "events:source", sourceStyle, sources);
             var t := PrintedList(typeIndent, "events:detail-type", typeStyle, types);
             && NoKey([head] + lead, "events:source") && EndsList(between + t + trail, sourceIndent)
             && NoKey([head] + lead + s + between, "events:detail-type") && EndsList(trail, typeIndent)
    ensures var s := PrintedList(sourceIndent, "events:source", sourceStyle, sources);
            var t := PrintedList(typeIndent, "events:detail-type", typeStyle, types);
            var block := PolicyLines(head, lead, s, between, t, trail);
            && ListValues(block, "events:source") == Some(set v | v in sources)
            && ListValues(block, "events:detail-type") == Some(set v | v in types)
  {
    hide ListValues, PrintedList, Clean, NoKey, EndsList, StyleOk;
    var s := PrintedList(sourceIndent, "events:source", sourceStyle, sources);
    var t := PrintedList(typeIndent, "events:detail-type", typeStyle, types);
    var block := PolicyLines(head, lead, s, between, t, trail);
    PolicyListReads([head] + lead, sourceIndent, "events:source", sourceStyle, sources, between + t + trail);
    assert block == ([head] + lead) + s + (between + t + trail);
    PolicyListReads([head] + lead + s + between, typeIndent, "events:detail-type", typeStyle, types, trail);
    assert block == ([head] + lead + s + between) + t + trail;
  }

  /** The same when the detail types come first. */
  lemma TypesFirst(head: string, lead: seq<string>, typeIndent: nat, typeStyle: Style, types: seq<string>,
                   between: seq<string>, sourceIndent: nat, sourceStyle: Style, sources: seq<string>,
                   trail: seq<string>)
    requires StyleOk(sourceStyle) && StyleOk(typeStyle)
    requires (forall v :: v in sources ==> Clean(v)) && (forall v :: v in types ==> Clean(v))
    requires var s := PrintedList(sourceIndent, "events:source", sourceStyle, sources);
             var t := PrintedList(typeIndent, "events:detail-type", typeStyle, types);
             && NoKey([head] + lead, "events:detail-type") && EndsList(between + s + trail, typeIndent)
             && NoKey([head] + lead + t + between, "events:source") && EndsList(trail, sourceIndent)
    ensures var s := PrintedList(sourceIndent, "events:source", sourceStyle, sources);
            var t := PrintedList(typeIndent, "events:detail-type", typeStyle, types);
            var block := PolicyLines(head, lead, t, between, s, trail);
            && ListValues(block, "events:source") == Some(set v | v in sources)
            && ListValues(block, "events:detail-type") == Some(set v | v in types)
  {
    hide ListValues, PrintedList, Clean, NoKey, EndsList, StyleOk;
    var s := PrintedList(sourceIndent, "events:source", sourceStyle, sources);
    var t := PrintedList(typeIndent, "events:detail-type", typeStyle, types);
    var block := PolicyLines(head, lead, t, between, s, trail);
    PolicyListReads([head] + lead, typeIndent, "events:detail-type", typeStyle, types, between + s + trail);
    assert block == ([head] + lead) + t + (between + s + trail);
    PolicyListReads([head] + lead + t + between, sourceIndent, "events:source", sourceStyle, sources, trail);
    assert block == ([head] + lead + t + between) + s + trail;
  }

  /** Reading the policy: the two sets of the first block headed `EventBusPolicy:`. */
  lemma PolicyReadsBack(before: seq<seq<string>>, block: seq<string>, after: seq<seq<string>>,
                        sources: set<string>, types: set<string>)
    requires forall b :: b in before ==> b == [] || Strip(b[0]) != "EventBusPolicy:"
    requires block != [] && Strip(block[0]) == "EventBusPolicy:"
    requires ListValues(block, "events:source") == Some(sources)
    requires ListValues(block, "events:detail-type") == Some(types)
    ensures Allowed(before + [block] + after).Some?
    ensures Allowed(before + [block] + after).value.sources == sources
    ensures Allowed(before + [block] + after).value.types == types
  {
    hide Strip, ListValues, PolicyBlock;
    FirstPolicyBlock(before, block, after);
  }

  /** The script's verdict. */
  predicate Verdict(producers: seq<seq<string>>, runtime: Option<Contract>, policy: seq<string>) {
    var forwarded, allowed := Forwarded(AllBlocks(producers)), Allowed(ResourceBlocks(policy));
    && forwarded.Some? && runtime.Some? && allowed.Some?
    && forwarded.value.sources + runtime.value.sources == allowed.value.sources
    && forwarded.value.types + runtime.value.types == allowed.value.types
  }

  /** End to end: on a policy whose first `EventBusPolicy:` block prints these sources and
      detail types, the verdict is OK if and only if no rule is bad, reading the Python rules
      does not raise, and a source is printed exactly when a rule forwards it, and a detail
      type likewise. */
  lemma VerdictMeans(producers: seq<seq<string>>, runtime: Option<Contract>, policy: seq<string>,
                     before: seq<seq<string>>, block: seq<string>, after: seq<seq<string>>,
                     sources: set<string>, types: set<string>)
    requires ResourceBlocks(policy) == before + [block] + after
    requires forall b :: b in before ==> b == [] || Strip(b[0]) != "EventBusPolicy:"
    requires block != [] && Strip(block[0]) == "EventBusPolicy:"
    requires ListValues(block, "events:source") == Some(sources)
    requires ListValues(block, "events:detail-type") == Some(types)
    ensures Verdict(producers, runtime, policy) <==>
            && runtime.Some?
            && (forall b :: IsRule(producers, b) ==> RuleContract(b).Some?)
            && (forall x :: x in sources <==> x in runtime.value.sources || ForwardsSource(producers, x))
            && (forall x :: x in types <==> x in runtime.value.types || ForwardsType(producers, x))
  {
    hide Strip, ListValues, ResourceBlocks, Allowed, RuleContract, Forwards, AllBlocks;
    PolicyReadsBack(before, block, after, sources, types);
    var blocks := AllBlocks(producers);
    ForwardedIsUnion(blocks);
    forall b ensures b in blocks <==> exists p :: 0 <= p < |producers| && b in ResourceBlocks(producers[p]) {
      AllBlocksHas(producers, b);
    }
    assert forall b :: IsRule(producers, b) <==> b in blocks && Forwards(b);
    var forwarded := Forwarded(blocks);
    if forwarded.Some? && runtime.Some? {
      forall x ensures x in forwarded.value.sources <==> ForwardsSource(producers, x) {
        SourceForwarded(producers, blocks, x);
      }
      forall x ensures x in forwarded.value.types <==> ForwardsType(producers, x) {
        TypeForwarded(producers, blocks, x);
      }
    }
  }

  /** A forwarding rule in one of the files. */
  ghost predicate IsRule(producers: seq<seq<string>>, block: seq<string>) {
    Forwards(block) && exists p :: 0 <= p < |producers| && block in ResourceBlocks(producers[p])
  }

  ghost predicate ForwardsSource(producers: seq<seq<string>>, x: string) {
    exists b :: IsRule(producers, b) && RuleContract(b).Some? && x in RuleContract(b).value.sources
  }

  ghost predicate ForwardsType(producers: seq<seq<string>>, x: string) {
    exists b :: IsRule(producers, b) && RuleContract(b).Some? && x in RuleContract(b).value.types
  }

  lemma SourceForwarded(producers: seq<seq<string>>, blocks: seq<seq<string>>, x: string)
    requires Forwarded(blocks).Some? && forall b :: IsRule(producers, b) <==> b in blocks && Forwards(b)
    ensures x in Forwarded(blocks).value.sources <==> ForwardsSource(producers, x)
  {
    hide IsRule, RuleContract, Forwards, Forwarded;
    ForwardedIsUnion(blocks);
    if x in Forwarded(blocks).value.sources {
      var i :| 0 <= i < |blocks| && Forwards(blocks[i]) && x in RuleContract(blocks[i]).value.sources;
      assert IsRule(producers, blocks[i]);
    }
    if b :| IsRule(producers, b) && RuleContract(b).Some? && x in RuleContract(b).value.sources {
      var i :| 0 <= i < |blocks| && blocks[i] == b;
    }
  }

  lemma TypeForwarded(producers: seq<seq<string>>, blocks: seq<seq<string>>, x: string)
    requires Forwarded(blocks).Some? && forall b :: IsRule(producers, b) <==> b in blocks && Forwards(b)
    ensures x in Forwarded(blocks).value.types <==> ForwardsType(producers, x)
  {
    hide IsRule, RuleContract, Forwards, Forwarded;
    ForwardedIsUnion(blocks);
    if x in Forwarded(blocks).value.types {
      var i :| 0 <= i < |blocks| && Forwards(blocks[i]) && x in RuleContract(blocks[i]).value.types;
      assert IsRule(producers, blocks[i]);
    }
    if b :| IsRule(producers, b) && RuleContract(b).Some? && x in RuleContract(b).value.types {
      var i :| 0 <= i < |blocks| && blocks[i] == b;
    }
  }

  lemma NothingForwarded()
    ensures Forwarded([]) == Some(Contract({}, {}))
  {
  }

  lemma ForwardedOneMore(blocks: seq<seq<string>>, block: seq<string>)
    requires Forwarded(blocks).Some?
    ensures Forwarded(blocks + [block]) ==
            if !Forwards(block) then Forwarded(blocks)
            else if RuleContract(block).None? then None
            else Some(Contract(Forwarded(blocks).value.sources + RuleContract(block).value.sources,
                               Forwarded(blocks).value.types + RuleContract(block).value.types))
  {
    hide RuleContract, Forwards;
    assert (blocks + [block])[..|blocks|] == blocks;
  }

  /** The producers' half of `forwarded_contracts`; nothing when a rule is bad. */
  method ForwardedContracts(producers: seq<seq<string>>) returns (forwarded: Option<Contract>)
    ensures forwarded == Forwarded(AllBlocks(producers))
  {
    hide RuleContract, Forwards, ResourceBlocks, Forwarded;
    var sum := Contract({}, {});
    NothingForwarded();
    ghost var done: seq<seq<string>> := [];
    for p := 0 to |producers|
      invariant done == AllBlocks(producers[..p])
      invariant Forwarded(done) == Some(sum)
    {
      assert producers[..p + 1][..p] == producers[..p];
      var blocks := ResourceBlocks(producers[p]);
      ghost var earlier := done;
      for b := 0 to |blocks|
        invariant done == earlier + blocks[..b]
        invariant Forwarded(done) == Some(sum)
      {
        ForwardedOneMore(done, blocks[b]);
        done := done + [blocks[b]];
        if Forwards(blocks[b]) {
          var contract := RuleContract(blocks[b]);
          if contract.None? {
            StaysBad(producers, p, b);
            return None;
          }
          sum := Contract(sum.sources + contract.value.sources, sum.types + contract.value.types);
        }
      }
      assert blocks[..|blocks|] == blocks;
    }
    assert producers[..|producers|] == producers;
    forwarded := Some(sum);
  }

  /** The script's `main`; `runtime` is what the Python rules forward, or nothing if reading
      them raises. It prints OK exactly when nothing raised and the forwarded and
      the allowed sources and detail types are the same sets: nothing missing, nothing
      stale. */
  method CheckPolicy(producers: seq<seq<string>>, runtime: Option<Contract>, policy: seq<string>) returns (ok: bool)
    ensures ok <==> Verdict(producers, runtime, policy)
  {
    hide Forwarded, Allowed, ResourceBlocks, AllBlocks;
    var forwarded := ForwardedContracts(producers);
    if forwarded.None? {
      return false;
    }
    if runtime.None? {
      return false;
    }
    var sources := forwarded.value.sources + runtime.value.sources;
    var types := forwarded.value.types + runtime.value.types;
    var allowed := Allowed(ResourceBlocks(policy));
    if allowed.None? {
      return false;
    }
    var missingSources, missingTypes := sources - allowed.value.sources, types - allowed.value.types;
    var staleSources, staleTypes := allowed.value.sources - sources, allowed.value.types - types;
    ok := missingSources == {} && missingTypes == {} && staleSources == {} && staleTypes == {};
    SameWhenNoDifference(sources, allowed.value.sources);
    SameWhenNoDifference(types, allowed.value.types);
  }

  lemma SameWhenNoDifference(a: set<string>, b: set<string>)
    ensures a - b == {} && b - a == {} <==> a == b
  {
    if a - b == {} && b - a == {} {
      forall x ensures x in a <==> x in b {
        assert x !in a - b && x !in b - a;
      }
    }
  }

  function AllBlocks(producers: seq<seq<string>>): seq<seq<string>> {
    if producers == [] then [] else AllBlocks(producers[..|producers| - 1]) + ResourceBlocks(producers[|producers| - 1])
  }

  lemma {:induction false} AllBlocksHas(producers: seq<seq<string>>, block: seq<string>)
    ensures block in AllBlocks(producers) <==> exists p :: 0 <= p < |producers| && block in ResourceBlocks(producers[p])
  {
    hide ResourceBlocks;
    if producers != [] {
      var n := |producers| - 1;
      AllBlocksHas(producers[..n], block);
      if p :| 0 <= p < |producers| && block in ResourceBlocks(producers[p]) && p < n {
        assert block in ResourceBlocks(producers[..n][p]);
      }
    }
  }

  lemma StaysBad(producers: seq<seq<string>>, p: nat, b: nat)
    requires p < |producers| && b < |ResourceBlocks(producers[p])|
    requires Forwards(ResourceBlocks(producers[p])[b]) && RuleContract(ResourceBlocks(producers[p])[b]).None?
    ensures Forwarded(AllBlocks(producers)).None?
  {
    hide ResourceBlocks, Forwards, RuleContract;
    var block := ResourceBlocks(producers[p])[b];
    AllBlocksHas(producers, block);
    ForwardedIsUnion(AllBlocks(producers));
    var i :| 0 <= i < |AllBlocks(producers)| && AllBlocks(producers)[i] == block;
  }
}
