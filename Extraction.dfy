/** The block-building loop of `extract_text` (server.py:265-286) and the
    `full_text` it returns (server.py:297). The OCR engine's word table
    (`image_to_data` with dictionary output) is an input: one row per entry,
    its `text`, `left`, `top`, `width` and `height` columns side by side. */
module Extraction {
  import opened PySemantics

  /** One entry of the OCR word table. */
  datatype OcrRow = OcrRow(text: string, left: int, top: int, width: int, height: int)

  /** A text block as `extract_text` returns it (the `confidence` field is
      not part of this model). */
  datatype TextBlock = TextBlock(
    text: string,
    x: int, y: int, width: int, height: int,
    fontSize: int, fontFamily: string,
    bold: bool, italic: bool, underline: bool,
    textColor: string, backgroundColor: string, backgroundTransparent: bool)

  /** `text and str(text).strip()`: the row holds a recognised word. */
  predicate Recognised(row: OcrRow) {
    row.text != [] && !Blank(row.text)
  }

  /** The block built for a recognised row: its stripped text, its box, and
      the fixed default styling. */
  function BlockFromRow(row: OcrRow): TextBlock {
    TextBlock(Strip(row.text), row.left, row.top, row.width, row.height,
              20, "Arial", false, false, false, "#000000", "#FFFFFF", true)
  }

  /** The styling every extracted block starts with. */
  predicate DefaultStyled(b: TextBlock) {
    && b.fontSize == 20 && b.fontFamily == "Arial"
    && !b.bold && !b.italic && !b.underline
    && b.textColor == "#000000" && b.backgroundColor == "#FFFFFF"
    && b.backgroundTransparent
  }

  /** The blocks the loop has appended after reading `rows`. */
  function Extracted(rows: seq<OcrRow>): seq<TextBlock> {
    if rows == [] then []
    else
      var last := rows[|rows| - 1];
      var init := Extracted(rows[..|rows| - 1]);
      if Recognised(last) then init + [BlockFromRow(last)] else init
  }

  /** The positions of the rows that produce a block, in row order. */
  function KeptIndices(rows: seq<OcrRow>): seq<nat> {
    if rows == [] then []
    else
      var init := KeptIndices(rows[..|rows| - 1]);
      if Recognised(rows[|rows| - 1]) then init + [|rows| - 1] else init
  }

  /** The `for i in range(len(data['level']))` loop that appends one block
      per recognised row. */
  method ExtractBlocks(rows: seq<OcrRow>) returns (blocks: seq<TextBlock>)
    ensures blocks == Extracted(rows)
  {
    blocks := [];
    for i := 0 to |rows|
      invariant blocks == Extracted(rows[..i])
    {
      var text := rows[i].text;
      if text != [] && Strip(text) != [] {
        var block := TextBlock(Strip(text), rows[i].left, rows[i].top, rows[i].width, rows[i].height,
                               20, "Arial", false, false, false, "#000000", "#FFFFFF", true);
        blocks := blocks + [block];
      }
      assert rows[..i + 1][..i] == rows[..i];
    }
    assert rows[..|rows|] == rows;
  }

  /** The rows that produce a block are exactly the recognised ones, and
      their positions are listed in increasing order. */
  lemma {:induction false} KeptIndicesSpec(rows: seq<OcrRow>)
    ensures forall k :: 0 <= k < |KeptIndices(rows)| ==> KeptIndices(rows)[k] < |rows|
    ensures forall k, l :: 0 <= k < l < |KeptIndices(rows)| ==> KeptIndices(rows)[k] < KeptIndices(rows)[l]
    ensures forall i :: 0 <= i < |rows| ==> (i in KeptIndices(rows) <==> Recognised(rows[i]))
  {
    if rows != [] {
      var init := rows[..|rows| - 1];
      KeptIndicesSpec(init);
      assert forall i :: 0 <= i < |init| ==> rows[i] == init[i];
    }
  }

  /** Block k is built from the row at the k-th kept position: one block per
      recognised row, in row order. */
  lemma {:induction false} ExtractedByIndex(rows: seq<OcrRow>)
    ensures |Extracted(rows)| == |KeptIndices(rows)|
    ensures forall k :: 0 <= k < |Extracted(rows)| ==>
              KeptIndices(rows)[k] < |rows| && Extracted(rows)[k] == BlockFromRow(rows[KeptIndices(rows)[k]])
  {
    if rows != [] {
      var init := rows[..|rows| - 1];
      ExtractedByIndex(init);
      assert forall i :: 0 <= i < |init| ==> rows[i] == init[i];
    }
  }

  /** Every block's text is the non-empty, stripped word of its row, and
      every block carries the default styling. */
  lemma {:induction false} ExtractedBlocksWellFormed(rows: seq<OcrRow>)
    ensures forall b :: b in Extracted(rows) ==>
              b.text != [] && Strip(b.text) == b.text && DefaultStyled(b)
  {
    if rows != [] {
      var last := rows[|rows| - 1];
      ExtractedBlocksWellFormed(rows[..|rows| - 1]);
      StripIdempotent(last.text);
    }
  }

  /** The rows are handled one by one: extracting from two tables one after
      the other is extracting from their concatenation. */
  lemma {:induction false} ExtractedAppend(a: seq<OcrRow>, b: seq<OcrRow>)
    ensures Extracted(a + b) == Extracted(a) + Extracted(b)
    decreases |b|
  {
    if b == [] {
      assert a + b == a;
    } else {
      assert (a + b)[..|a + b| - 1] == a + b[..|b| - 1];
      ExtractedAppend(a, b[..|b| - 1]);
    }
  }

  /** A single row holding "Hello", with or without surrounding white space,
      becomes exactly one default-styled block with text "Hello". */
  lemma HelloExample(left: int, top: int, width: int, height: int)
    ensures Extracted([OcrRow(" Hello\n", left, top, width, height)])
         == [TextBlock("Hello", left, top, width, height, 20, "Arial", false, false, false, "#000000", "#FFFFFF", true)]
  {
    var s := " Hello\n";
    assert SkipSpace(s, 0, Whitespace) == 1;
    assert TrimEnd(s, 1, 7, Whitespace) == 6;
    assert Strip(s) == "Hello";
  }

  /** The block texts, in order. */
  function Texts(blocks: seq<TextBlock>): (r: seq<string>)
    ensures |r| == |blocks| && forall k :: 0 <= k < |blocks| ==> r[k] == blocks[k].text
  {
    seq(|blocks|, k requires 0 <= k < |blocks| => blocks[k].text)
  }

  /** `' '.join(parts)`. */
  function Join(parts: seq<string>): string {
    if parts == [] then ""
    else if |parts| == 1 then parts[0]
    else parts[0] + " " + Join(parts[1..])
  }

  /** `full_text`: the block texts joined by single spaces. */
  function FullText(blocks: seq<TextBlock>): string {
    Join(Texts(blocks))
  }

  /** `s.split(' ')`: the pieces between single spaces; always at least one. */
  function Split(s: string): (r: seq<string>)
    ensures |r| >= 1
  {
    if s == [] then [""]
    else
      var rest := Split(s[1..]);
      if s[0] == ' ' then [""] + rest
      else [[s[0]] + rest[0]] + rest[1..]
  }

  /** A piece without spaces sticks to the front of the first piece of what
      follows it. */
  lemma {:induction false} SplitPrefix(p: string, tail: string)
    requires ' ' !in p
    ensures Split(p + tail) == [p + Split(tail)[0]] + Split(tail)[1..]
  {
    if p != [] {
      assert (p + tail)[1..] == p[1..] + tail;
      SplitPrefix(p[1..], tail);
      var r := Split(tail);
      assert p[0] != ' ' by { assert p[0] in p; }
      assert [p[0]] + (p[1..] + r[0]) == p + r[0];
    } else {
      var r := Split(tail);
      assert p + tail == tail && p + r[0] == r[0];
      assert r == [r[0]] + r[1..];
    }
  }

  /** Splitting `full_text` on spaces gives back the block texts, provided
      there is at least one block and no text contains a space. */
  lemma {:induction false} SplitJoin(parts: seq<string>)
    requires parts != []
    requires forall k :: 0 <= k < |parts| ==> ' ' !in parts[k]
    ensures Split(Join(parts)) == parts
  {
    if |parts| == 1 {
      SplitPrefix(parts[0], "");
      assert parts[0] + "" == parts[0];
    } else {
      var rest := Join(parts[1..]);
      SplitJoin(parts[1..]);
      assert parts[0] + " " + rest == parts[0] + (" " + rest);
      SplitPrefix(parts[0], " " + rest);
      assert (" " + rest)[1..] == rest;
      assert parts[0] + "" == parts[0];
      assert parts == [parts[0]] + parts[1..];
    }
  }

  /** `full_text` of extracted blocks is empty exactly when no row was
      recognised, since every block's text is non-empty. */
  lemma FullTextEmptyIffNoBlocks(rows: seq<OcrRow>)
    ensures FullText(Extracted(rows)) == "" <==> Extracted(rows) == []
  {
    var blocks := Extracted(rows);
    if blocks != [] {
      ExtractedBlocksWellFormed(rows);
      assert blocks[0] in blocks;
      JoinStartsWithFirst(Texts(blocks));
    }
  }

  /** The joined text starts with the first part. */
  lemma {:induction false} JoinStartsWithFirst(parts: seq<string>)
    requires parts != []
    ensures |Join(parts)| >= |parts[0]| && Join(parts)[..|parts[0]|] == parts[0]
  {
    if |parts| > 1 {
      assert Join(parts) == parts[0] + (" " + Join(parts[1..]));
    }
  }
}
