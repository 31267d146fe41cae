# Image text editor server: OCR set-up, block extraction and re-drawing

This project models the core of a small Flask server, `server.py`, in Dafny. The server reads the words of an uploaded image with the Tesseract OCR engine. It returns them as styled text blocks. Later it paints edited blocks back onto the image. The model covers:

- `setup_tesseract`: the order of precedence used to locate the OCR executable. It mutates the OCR wrapper's command, which the model holds as the class `Tesseract.TesseractConfig`.
- `hex_to_rgb`: `lstrip('#')` followed by three `int(_, 16)` slices, with Python's `int` and slicing rules written out (module `Colors`).
- `get_font`: the two font tables, the Linux-then-Windows search with its early returns, and the built-in default (module `Fonts`).
- `extract_text`: the loop that turns the OCR word table into text blocks, and the `full_text` join (module `Extraction`).
- `update_image`: request validation (400/404), the per-block drawing loop on a transparent overlay, and the output file name (module `Overlay`).
  - Each failing block is caught and skipped; the loop goes on.
  - The overlay is a `Canvas` class whose field is the list of drawing calls it received.

The pieces of Python the code relies on live in `PySemantics`. They are:

- a JSON value type;
- truthiness;
- `dict.get` and `d[key]`;
- `str.strip()` over Python's white-space set;
- `int(s, base)` with its own, narrower white-space set, a sign, the `0x` prefix and underscores;
- `str(x)`.

Exceptions become the `Err` case of a `Result`. The environment appears as parameters: the filesystem, the font loader, the imaging library's acceptance of each drawing call, its text measurement, `secure_filename` and saving.

## Model

| member | source | states |
|---|---|---|
| PySemantics.Index | server.py:342-346 | `block[key]` succeeds exactly on a dict holding the key, and yields that key's value. |
| PySemantics.Truthy | server.py:322 | Python's `bool(v)` for a JSON value: false exactly for None, False, 0, and an empty string, list or dict. |
| PySemantics.Get | server.py:349-356 | `d.get(key, default)`: the stored value when the key is present, the default otherwise. |
| PySemantics.SkipSpaceSpec | server.py:268 | The leading characters that `strip()` (or `int()`) skips are all white space of its kind, and the scan stops at the first character that is not. |
| PySemantics.TrimEndSpec | server.py:268 | The trailing characters cut are all white space of that kind, and the kept part does not end in one. |
| PySemantics.Strip | server.py:268-270 | `str(text).strip()`: never longer than the text; `StripIsInfix` gives its full meaning. |
| PySemantics.StripIsInfix | server.py:268-270 | `s.strip()` is an infix of `s` that neither starts nor ends with white space, and only white space is cut from either end. |
| PySemantics.StripNoSpaceEnds | server.py:270 | A string without white space at either end is its own strip. |
| PySemantics.StripIdempotent | server.py:270 | Stripping twice is stripping once, so a block's text is already stripped. |
| PySemantics.BlankIffAllSpace | server.py:268 | `str(text).strip()` is falsy exactly when every character is white space. |
| PySemantics.DigitValue | server.py:82 | A character's digit value is at most 36, and 36 means the character is no digit in any base. |
| PySemantics.DigitIsPlain | server.py:82 | A digit is never white space for `int()`, a sign or an underscore, so `int` reads it as a digit. |
| PySemantics.ParseInt | server.py:82 | `int(s, base)` for base 10 or 16, skipping only the white space `int()` skips (ASCII `\t \n \v \f \r` and space, and non-ASCII white space); every failure is a ValueError. |
| PySemantics.ToInt | server.py:342-349 | `int(v)` of a JSON value: numbers kept, booleans 0 or 1, strings parsed in base 10, None, lists and dicts a TypeError. |
| PySemantics.SeparatorsNotSkippedByInt | server.py:82 | The separators U+001C to U+001F are stripped by `strip()` but make `int()` raise ValueError. |
| PySemantics.ParseHexPair | server.py:82 | `int(s, 16)` of two hexadecimal digits is `16 * hi + lo`. |
| PySemantics.ParseEmpty | server.py:82 | `int('', base)` raises ValueError. |
| PySemantics.NatDigits | server.py:346 | The decimal text of a natural number is non-empty and made of the digits '0' to '9' only; `NatDigitsValue` gives its value. |
| PySemantics.NatDigitsValue | server.py:346 | The decimal digits of n denote n. |
| PySemantics.IntToString | server.py:346 | `str(n)` is non-empty, starts with '-' exactly for a negative number, and is digits otherwise; `IntToStringRoundTrip` gives its value. |
| PySemantics.IntToStringRoundTrip | server.py:342-346 | `int(str(n)) == n` for every integer: the text `str()` writes reads back as the same number. |
| PySemantics.DigitsValuePrefix | server.py:82 | The value of a digit run does not depend on what follows it. |
| PySemantics.DigitsValueShift | server.py:82 | The value of a digit run does not depend on what precedes it. |
| PySemantics.AllDigitsOk | server.py:82 | A run of digits of the base is accepted by `int()`. |
| PySemantics.SignedDigitsParse | server.py:342-346 | An optional '-' followed by decimal digits parses to the digits' value, negated after the '-'. |
| Colors.Opaque | server.py:366 | `rgb + (255,)` keeps the three components and sets alpha 255. |
| Colors.LStripHash | server.py:81 | `lstrip('#')` never lengthens the string. |
| Colors.LStripHashSpec | server.py:81 | `lstrip('#')` leaves a suffix that does not start with '#', and everything removed was '#'. |
| Colors.PySlice | server.py:82 | The length of `s[i:j]` follows Python's clamping: `j - i` inside the string, shorter past its end, empty beyond it. |
| Colors.HexToRgb | server.py:79-82 | `hex_to_rgb`: strip the leading '#', read the slices [0:2], [2:4], [4:6] in base 16; every failure is a ValueError. |
| Colors.Components | server.py:82 | The generator yields one value per offset, and every failure it propagates is a ValueError; `ComponentsFailAt` shows that one failing slice makes it fail. |
| Colors.ComponentsFailAt | server.py:82 | One slice that does not parse makes the whole colour fail. |
| Colors.ForeignSliceRejected | server.py:82 | A slice of one or two characters holding a character that is no hex digit, no white space, no sign and no underscore raises ValueError. |
| Colors.HexToRgbRejectsForeign | server.py:79-82 | Such a character among the first six after the '#' makes `hex_to_rgb` raise ValueError. |
| Colors.NonHexColorRejected | server.py:79-82 | "#GG0000" raises ValueError. |
| Colors.ShortColorRejected | server.py:81-82 | Fewer than five characters after the '#' raise ValueError. |
| Colors.PairsDecode | server.py:82 | When every slice holds two hexadecimal digits, every component is the value of its digit pair. |
| Colors.PairDecodes | server.py:82 | The slice `[i:i+2]` of two hexadecimal digits parses to their value. |
| Colors.ColorOf | server.py:363 | A colour that is not a string raises AttributeError at `lstrip`. |
| Colors.Hashes | server.py:81 | `k` '#' characters. |
| Colors.LStripHashes | server.py:81 | Any number of leading '#' is removed, and the rest is kept whole. |
| Colors.LStripHashAppend | server.py:81 | Text appended after a string that does not strip to nothing survives the strip unchanged. |
| Colors.HexDigitsDecode | server.py:79-82 | After any number of '#', six hexadecimal digits decode pair by pair into three bytes (0..255), and what follows them is ignored. |
| Colors.HexToRgbIgnoresTail | server.py:82 | Once six characters remain after the '#', anything appended changes nothing. |
| Colors.ComponentsIgnoreTail | server.py:82 | Slices that lie inside the string do not see what is appended to it. |
| Colors.HexDigitChar | server.py:82 | The digit written for 0..15 is a hexadecimal digit with that value. |
| Colors.Hex2 | server.py:82 | The two-digit text of a byte is two hexadecimal digits whose pair value is the byte. |
| Colors.FormatHexRoundTrip | server.py:79-82 | `hex_to_rgb` reads back every colour written "#RRGGBB": the round trip through text is the identity. |
| Colors.DefaultColors | server.py:282-283 | The default colours "#000000" and "#FFFFFF" decode to black and white. |
| Colors.GreenAndRed | server.py:79-82 | "#00FF00" and "#FF0000" decode to pure green and pure red. |
| Fonts.FamilyKey | server.py:128 | The family lookup raises TypeError exactly for an unhashable family (a list or dict); only a string can name a table entry. |
| Fonts.Candidates | server.py:128 | `table.get(family, table.get('Arial', []))`: the family's list, or Arial's for an unknown or non-string family. |
| Fonts.FirstUsable | server.py:129-134 | The first candidate of a list that is present, exists on disk and loads at the requested size. |
| Fonts.ResolveFont | server.py:84-147 | What `get_font` returns: the first usable Linux candidate, else the first usable Windows candidate, else the default font; TypeError for an unhashable family. |
| Fonts.GetFont | server.py:84-147 | The method's two loops with early returns return exactly the font of the specification `ResolveFont`. |
| Fonts.SearchCandidates | server.py:129-134 | One `for path in font_paths` loop returns the first candidate that is present, exists and loads. |
| Fonts.FirstUsableAt | server.py:129-134 | A usable candidate preceded only by unusable ones is the one returned. |
| Fonts.NoneUsable | server.py:129-143 | A list yields nothing exactly when none of its candidates is usable. |
| Fonts.FirstUsableSound | server.py:129-134 | A returned candidate is usable, and every candidate before it is not. |
| Fonts.FirstUsableAppend | server.py:127-143 | Searching two lists one after the other is searching their concatenation. |
| Fonts.ResolveIsFirstInSearchOrder | server.py:127-147 | `get_font` returns the first usable candidate of the Linux list followed by the Windows list, or the default font when there is none. |
| Fonts.ResolveFailsOnlyForUnhashable | server.py:128 | `get_font` raises only for a list or dict family, and then it raises TypeError. |
| Fonts.DefaultOnlyWhenExhausted | server.py:145-147 | The default font is returned exactly when every candidate of both tables is absent, missing on disk or fails to load. |
| Fonts.WindowsOnlyAfterLinux | server.py:127-143 | While some Linux candidate is usable, the font returned is a Linux file. |
| Fonts.UnknownFamilyUsesArial | server.py:128 | A family missing from a table is looked up as 'Arial' in that table. |
| Fonts.RegularFace | server.py:90-125 | The regular face is the first candidate of a family's list; the two lemmas below show it is the plain, style-independent file. |
| Fonts.LinuxRegularFaceStyleFree | server.py:90-104 | In the Linux table every family's first entry is present and is the same file for every bold and italic combination. |
| Fonts.WindowsRegularFaceStyleFree | server.py:107-125 | The same holds for every family of the Windows table. |
| Fonts.RegularFaceWins | server.py:90-134 | Bold and italic only add variants after the regular file: when the family's plain Linux file exists and loads, it is returned whatever style is asked, so a bold or italic Linux file is returned only when the plain one is unusable. |
| Fonts.RegularWindowsFaceWins | server.py:107-143 | Once no Linux candidate is usable, the family's plain Windows file, when it exists and loads, is returned whatever style is asked. |
| Fonts.PlainRequestGetsRegularFace | server.py:90-147 | Without bold or italic the result is a Linux regular face, a Windows regular face or the default font. |
| Tesseract.FirstExisting | server.py:53-57 | The first path of a fixed list that exists. |
| Tesseract.Locate | server.py:26-72 | The precedence order: an existing TESSERACT_PATH, else the `which` result, else the first existing Linux path, else the first existing Windows path, else nothing. |
| Tesseract.FindTesseract | server.py:32-72 | The search with its early returns finds exactly what the precedence order `Locate` prescribes. |
| Tesseract.TesseractConfig.constructor | server.py:74-75 | At start-up the wrapper is available exactly when set-up finds an executable, and its command is that executable or the default "tesseract". |
| Tesseract.TesseractConfig.Setup | server.py:26-72 | Returns True exactly when an executable is found, and then the command is that path; otherwise the command is unchanged. |
| Tesseract.FirstExistingAt | server.py:53-57 | An existing path preceded only by missing ones is the one chosen. |
| Tesseract.NoneExisting | server.py:53-69 | A path list yields nothing exactly when none of its paths exists. |
| Tesseract.FirstExistingSound | server.py:53-57 | A chosen path is in the list and exists. |
| Tesseract.EnvironmentFirst | server.py:32-37 | A set and existing TESSERACT_PATH overrides every other source. |
| Tesseract.FailsOnlyWhenNothingFound | server.py:32-72 | Set-up fails exactly when TESSERACT_PATH is unset, empty or missing, `which` finds nothing, and none of the five fixed paths exists. |
| Tesseract.LocateSound | server.py:32-69 | The executable chosen is an existing TESSERACT_PATH, the `which` result, or an existing fixed path. |
| Tesseract.LinuxPathsFirst | server.py:46-69 | When no earlier source applies and some Linux path exists, a Linux path is chosen and no Windows path. |
| Extraction.BlockFromRow | server.py:269-285 | The block built for a recognised row: its stripped text, its box, and the default styling. |
| Extraction.Extracted | server.py:265-286 | The blocks appended after reading a prefix of the word table, one per recognised row. |
| Extraction.KeptIndices | server.py:266-268 | The positions of the rows that produce a block. |
| Extraction.ExtractBlocks | server.py:265-286 | The append loop builds exactly the specification list `Extracted` of the word table. |
| Extraction.KeptIndicesSpec | server.py:266-268 | The rows that give a block are exactly those whose text is non-empty after stripping, in increasing row order. |
| Extraction.ExtractedByIndex | server.py:266-286 | Block k comes from the k-th such row: one block per recognised row, in row order. |
| Extraction.ExtractedBlocksWellFormed | server.py:268-285 | Every block's text is non-empty and already stripped, and every block carries the default styling. |
| Extraction.ExtractedAppend | server.py:266-286 | The rows are handled independently: extracting from a concatenation concatenates the results. |
| Extraction.HelloExample | server.py:267-286 | The row " Hello\n" becomes the single block "Hello" with its box and the default styling. |
| Extraction.Texts | server.py:297 | The list of block texts has one entry per block, in block order. |
| Extraction.Join | server.py:297 | `' '.join(parts)`. |
| Extraction.FullText | server.py:297 | `full_text`: the block texts joined by single spaces. |
| Extraction.Split | server.py:297 | `s.split(' ')` always has at least one piece. |
| Extraction.SplitPrefix | server.py:297 | A piece without spaces joins the first piece of what follows it. |
| Extraction.SplitJoin | server.py:297 | When there is at least one block and no text holds a space, splitting `full_text` on spaces gives back the block texts. |
| Extraction.FullTextEmptyIffNoBlocks | server.py:286-297 | `full_text` is empty exactly when no block was extracted. |
| Extraction.JoinStartsWithFirst | server.py:297 | The joined text starts with the first block's text. |
| Overlay.Canvas.constructor | server.py:334-335 | A fresh overlay has received no drawing call. |
| Overlay.Canvas.Draw | server.py:364-388 | A drawing call is recorded after the earlier ones when the imaging library accepts it; nothing changes when it raises. |
| Overlay.ParseFields | server.py:342-356 | The fields read from a block, in source order, with the first failing read's error. |
| Overlay.CoverFill | server.py:361-373 | The fill of the cover rectangle. |
| Overlay.UnderlineOps | server.py:379-390 | The underline calls of a block whose text was drawn. |
| Overlay.DrawPlan | server.py:361-390 | The calls of the drawing part and how it ends, given the text colour `hex_to_rgb` returns. |
| Overlay.BlockPlan | server.py:341-395 | The calls one block leaves on the overlay and how its `try` ends. |
| Overlay.PlanOps | server.py:340-395 | The calls all blocks leave on the overlay, block after block. |
| Overlay.PathProbe | server.py:325 | `os.path.exists(image_path)`: strings on disk, integers and booleans as file descriptors, anything else a TypeError. |
| Overlay.BlockItems | server.py:337-340 | What `for block in text_blocks` iterates over once `len` succeeded. |
| Overlay.UpdateResponse | server.py:316-426 | The response of `update_image` for a request body. |
| Overlay.ProcessBlock | server.py:341-395 | Processing one block appends exactly that block's planned calls to the overlay and reports how the block ended. |
| Overlay.DrawBlock | server.py:361-390 | The rectangle, the text and the underline are appended exactly as the drawing plan says. |
| Overlay.DrawText | server.py:375-390 | The text is appended when accepted, then the underline calls; a rejected text ends the block with nothing more appended. |
| Overlay.DrawUnderline | server.py:379-390 | The underline is appended only when requested, measured and accepted; a failure is swallowed. |
| Overlay.Basename | server.py:402 | `basename` is the suffix after the last '/': it holds no '/', and the character before it is a '/'. |
| Overlay.UpdateImage | server.py:316-418 | The handler's response (400, 404, 500 or the edited result with its drawing calls and file name) is exactly that of the specification `UpdateResponse`. |
| Overlay.BadRequestIff | server.py:317-323 | Status 400 is answered exactly when `image_path` or `text_blocks` is missing or falsy. |
| Overlay.NotFoundIff | server.py:322-326 | Status 404 is answered exactly when both fields are truthy and the file does not exist. |
| Overlay.EditedDrawsListBlocks | server.py:340-418 | A successful edit names its output after the input path, and for a list draws every block in order. |
| Overlay.OutputNameShape | server.py:402 | The output name is "edited_" followed by the sanitised last path component. |
| Overlay.PlanOpsAppend | server.py:340-395 | Blocks are drawn independently: the calls for a concatenation of block lists are the calls of each part, in order. |
| Overlay.FailedBlockIsolated | server.py:340-395 | A failing block does not disturb the blocks around it, and leaves at most its cover rectangle. |
| Overlay.NonObjectBlockSkipped | server.py:342 | A block that is not a dict fails with TypeError and draws nothing. |
| Overlay.MissingKeySkipped | server.py:342-346 | A block missing a required key fails with KeyError and draws nothing, whatever follows that key, provided the keys read before it convert. |
| Overlay.FieldDefaults | server.py:349-356 | Missing styling keys take their defaults: size 20, Arial, no underline, black text, white background, transparent. |
| Overlay.CoverFillSpec | server.py:361-373 | The cover is the background colour at alpha 255 when transparency is off (and fails when that colour does not parse), otherwise white at alpha 200. |
| Overlay.RenderedShape | server.py:361-390 | A block drawn to the end leaves its rectangle 2 pixels larger than its box, then its text at (x, y) at alpha 255. A 2-pixel underline one pixel below the measured text follows exactly when it is requested, measured and accepted. |
| Overlay.RenderedBlock | server.py:342-377 | A block is drawn to the end only when its fields, its font and its cover fill were all obtained. |
| Overlay.BlockReachesDrawing | server.py:342-373 | Once the fields, the font and the cover fill are obtained, the block's calls are those of the drawing part. |
| Overlay.BadTextColorLeavesRect | server.py:361-377 | A text colour that does not parse leaves exactly the cover rectangle, and the block fails with that error. |
| Overlay.EarlyFailureDrawsNothing | server.py:342-373 | A failure before the rectangle is drawn leaves nothing on the overlay. |
| Overlay.UnderlineFailureSwallowed | server.py:379-390 | A failed underline measurement is swallowed: the block still counts as drawn, with its rectangle and text. |
| Overlay.NumericBlockFields | server.py:342-356 | A block with numeric coordinates, a string text and no font size reads as those values, size 20 and the defaulted styling. |
| Overlay.DrawingWithoutUnderline | server.py:361-390 | Without an underline, and with every call accepted, a block whose text colour reads as `rgb` leaves exactly its rectangle and then its text in that colour at alpha 255. |

## Left out

- The Flask transport, `/health`, `/debug` and `/download`, and the upload handling of `extract_text` (file checks, saving, image enhancement): these are not part of this model.
- OCR itself: the engine's word table is an input (`Extraction.OcrRow`). The `confidence` field (`float(data['conf'][i])`) is not modelled, because it involves floating point.
- JSON numbers are integers only. Floating-point coordinates, and `int()` of a float that truncates it, are not modelled.
- `int()` of a string accepts ASCII digits only. Python also accepts other Unicode decimal digits and limits literals to 4300 digits; neither is modelled. Its white space is modelled as CPython's: ASCII `\t \n \v \f \r` and space, plus every non-ASCII character `isspace()` accepts.
- The imaging library is abstract. `Platform.draws`, `textBbox`, `opens` and `saves` say whether each call succeeds. Pixels, alpha compositing, conversion to RGB, JPEG quality and the base64 response body are not modelled.
- `secure_filename` and `repr` of lists and dicts are uninterpreted functions.
- Iterating a dict `text_blocks` yields its keys. Each key is a string and fails at `block['x']` like a character of a string does, so the model iterates over no items and draws nothing. The keys are not listed.
- Logging and `print` output are left out, including the warning `get_font` prints before its fallback.
- Fonts.GetFont: the two search loops share one helper method, `SearchCandidates`, instead of being written out twice.
- Fonts.ResolveFailsOnlyForUnhashable: `get_font` is written as a fallback chain that always ends in a font, but `dict.get` with a list or dict family raises TypeError; the model follows the code.
- Overlay.Basename: paths are POSIX paths. On Windows `os.path.basename` also splits at `\` and after a drive colon; that variant is not modelled.
- Extraction.SplitJoin: the round trip needs block texts without spaces. OCR words normally contain none, but the model does not prove that they never do.
