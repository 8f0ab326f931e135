/** Splitting the lines of a grouped price request into Telegram messages. */
module Chunking {
  import opened Wrappers
  import opened Packing
  import Decimals
  import LineCodes

  datatype Item = Item(lineNo: Option<nat>, sourceText: string)

  /** One line as it will appear in the message. */
  function LineText(batch: nat, item: Item): (s: string)
    ensures s != ""
  {
    LineCodes.LineCode(batch, if item.lineNo.Some? then item.lineNo.value else 0) + " " + item.sourceText + "\n"
  }

  function LineLength(batch: nat): Item -> nat {
    item => |LineText(batch, item)|
  }

  /** A line takes the hash, the batch, the dash, a line number of at least two digits, a space, its text and the line
      feed. */
  lemma LineLengthIs(batch: nat, item: Item)
    ensures var line := if item.lineNo.Some? then item.lineNo.value else 0;
            LineLength(batch)(item)
            == |Decimals.Digits(batch)| + (if line < 10 then 2 else |Decimals.Digits(line)|) + |item.sourceText| + 4
    ensures var text := LineText(batch, item);
            && text[|text| - 1] == '\n'
            && text[|text| - 1 - |item.sourceText|..|text| - 1] == item.sourceText
  {
    var line := if item.lineNo.Some? then item.lineNo.value else 0;
    Decimals.DigitsLength(line);
    var front := LineCodes.LineCode(batch, line) + " ";
    assert LineText(batch, item) == front + item.sourceText + "\n";
  }

  /** Pack lines into the current message until the next one would not fit beside the header. The lines come
      back in order, every message is a single line or within the limit, and no other such split uses fewer
      messages. */
  method ChunkLines(batch: nat, items: seq<Item>, maxLen: int) returns (chunks: seq<seq<Item>>)
    ensures IsSplit(LineLength(batch), chunks, items, maxLen)
    ensures forall others :: IsSplit(LineLength(batch), others, items, maxLen) ==> |chunks| <= |others|
    ensures forall i :: 0 <= i < |chunks| && |chunks[i]| > 1 ==> Total(LineLength(batch), chunks[i]) + 120 <= maxLen
  {
    ghost var len := LineLength(batch);
    chunks := [];
    var current: seq<Item> := [];
    var currentLen := 0;
    ghost var start := 0;     // index of the first line of `current`
    NothingReached(len, items, maxLen);
    for i := 0 to |items|
      invariant Packed(len, items, maxLen, chunks, current, start, i)
      invariant currentLen == Total(len, current)
    {
      var lineText := LineText(batch, items[i]);
      TotalSnoc(len, current, items[i]);
      TotalSnoc(len, [], items[i]);
      if current != [] && currentLen + |lineText| + HEADER_RESERVE > maxLen {
        CloseChunk(len, items, maxLen, chunks, current, start, i);
        chunks := chunks + [current];
        start := i;
        current, currentLen := [], 0;
      } else {
        AddLine(len, items, maxLen, chunks, current, start, i);
      }
      assert [] + [items[i]] == [items[i]];
      current := current + [items[i]];
      currentLen := currentLen + |lineText|;
    }
    Cheapest(len, items, maxLen, chunks, current, start);
    if current != [] {
      chunks := chunks + [current];
    }
  }

  /** A supplier who copies a line of the message back is understood: its code is read as printed, and never as
      an explicit request id. */
  lemma CopiedLineUnderstood(batch: nat, item: Item)
    requires item.lineNo.Some? && item.lineNo.value <= 99
    ensures LineCodes.ParseBatchLineCode(LineText(batch, item)) == Some(LineCodes.LineCode(batch, item.lineNo.value))
    ensures LineCodes.ParseExplicitRequestId(LineText(batch, item)).None?
  {
    var tail := " " + item.sourceText + "\n";
    assert LineText(batch, item) == LineCodes.LineCode(batch, item.lineNo.value) + tail;
    LineCodes.LineCodeRoundTrip(batch, item.lineNo.value, tail);
  }
}
