/** `get_font` (server.py:84-147): an ordered search through two tables of
    candidate font files, Linux first and Windows second, ending in the
    imaging library's built-in default font. The filesystem probe and the
    font loader are parameters: `pathExists(p)` is `os.path.exists(p)`, and
    `fontLoads(p, size)` holds when `ImageFont.truetype(p, size)` returns
    without raising. */
module Fonts {
  import opened PySemantics

  /** A font handle: a TrueType file loaded at a size, or the built-in
      default font. */
  datatype Font = TrueType(path: string, size: int) | DefaultFont

  /** A font table: family name to its candidate files in order; `None`
      marks a style variant that was not requested. */
  type FontTable = map<string, seq<Option<string>>>

  const LinuxArialRegular := "/usr/share/fonts/truetype/liberation/LiberationSans-Regular.ttf"
  const LinuxArialBold := "/usr/share/fonts/truetype/liberation/LiberationSans-Bold.ttf"
  const LinuxArialItalic := "/usr/share/fonts/truetype/liberation/LiberationSans-Italic.ttf"
  const LinuxTimesRegular := "/usr/share/fonts/truetype/liberation/LiberationSerif-Regular.ttf"
  const LinuxTimesBold := "/usr/share/fonts/truetype/liberation/LiberationSerif-Bold.ttf"
  const LinuxCourierRegular := "/usr/share/fonts/truetype/liberation/LiberationMono-Regular.ttf"
  const LinuxCourierBold := "/usr/share/fonts/truetype/liberation/LiberationMono-Bold.ttf"

  const WindowsArialRegular := "C:/Windows/Fonts/arial.ttf"
  const WindowsArialBold := "C:/Windows/Fonts/arialbd.ttf"
  const WindowsArialItalic := "C:/Windows/Fonts/ariali.ttf"
  const WindowsTimesRegular := "C:/Windows/Fonts/times.ttf"
  const WindowsTimesBold := "C:/Windows/Fonts/timesbd.ttf"
  const WindowsTimesItalic := "C:/Windows/Fonts/timesi.ttf"
  const WindowsCourierRegular := "C:/Windows/Fonts/cour.ttf"
  const WindowsCourierBold := "C:/Windows/Fonts/courbd.ttf"
  const WindowsComicSans := "C:/Windows/Fonts/comic.ttf"
  const WindowsVerdana := "C:/Windows/Fonts/verdana.ttf"
  const WindowsGeorgia := "C:/Windows/Fonts/georgia.ttf"

  /** `linux_fonts`, built for the requested weight and slant. */
  function LinuxFonts(bold: bool, italic: bool): FontTable {
    map[
      "Arial" := [
        Some(LinuxArialRegular),
        if bold then Some(LinuxArialBold) else None,
        if italic then Some(LinuxArialItalic) else None],
      "Times New Roman" := [
        Some(LinuxTimesRegular),
        if bold then Some(LinuxTimesBold) else None],
      "Courier New" := [
        Some(LinuxCourierRegular),
        if bold then Some(LinuxCourierBold) else None]
    ]
  }

  /** `windows_fonts`, built for the requested weight and slant. */
  function WindowsFonts(bold: bool, italic: bool): FontTable {
    map[
      "Arial" := [
        Some(WindowsArialRegular),
        if bold then Some(WindowsArialBold) else None,
        if italic then Some(WindowsArialItalic) else None],
      "Times New Roman" := [
        Some(WindowsTimesRegular),
        if bold then Some(WindowsTimesBold) else None,
        if italic then Some(WindowsTimesItalic) else None],
      "Courier New" := [
        Some(WindowsCourierRegular),
        if bold then Some(WindowsCourierBold) else None],
      "Comic Sans MS" := [Some(WindowsComicSans)],
      "Verdana" := [Some(WindowsVerdana)],
      "Georgia" := [Some(WindowsGeorgia)]
    ]
  }

  /** The dictionary key a requested family stands for: a string is looked
      up as itself, None, booleans and numbers are hashable but match no
      family, and lists and dicts are unhashable, so `dict.get` raises
      TypeError. */
  function FamilyKey(family: Json): (r: Result<Option<string>>)
    ensures r.Err? <==> family.JArr? || family.JObj?
    ensures r.Ok? && r.value.Some? <==> family.JStr?
  {
    match family
    case JStr(s) => Ok(Some(s))
    case JArr(_) => Err(TypeError)
    case JObj(_) => Err(TypeError)
    case _ => Ok(None)
  }

  /** `table.get(family, table.get('Arial', []))`. */
  function Candidates(table: FontTable, key: Option<string>): seq<Option<string>> {
    if key.Some? && key.value in table then table[key.value]
    else if "Arial" in table then table["Arial"]
    else []
  }

  /** A candidate the loop returns: present (`if path`), on disk, and
      loadable at the requested size. */
  predicate Usable(entry: Option<string>, size: int, pathExists: string -> bool, fontLoads: (string, int) -> bool) {
    entry.Some? && entry.value != "" && pathExists(entry.value) && fontLoads(entry.value, size)
  }

  /** The first usable candidate of a list, in list order. */
  function FirstUsable(paths: seq<Option<string>>, size: int, pathExists: string -> bool, fontLoads: (string, int) -> bool): Option<string> {
    if paths == [] then None
    else if Usable(paths[0], size, pathExists, fontLoads) then Some(paths[0].value)
    else FirstUsable(paths[1..], size, pathExists, fontLoads)
  }

  /** What `get_font` returns: the first usable Linux candidate, else the
      first usable Windows candidate, else the default font; TypeError
      when the family cannot be used as a dictionary key. */
  function ResolveFont(family: Json, size: int, bold: bool, italic: bool,
                       pathExists: string -> bool, fontLoads: (string, int) -> bool): Result<Font>
  {
    match FamilyKey(family)
    case Err(e) => Err(e)
    case Ok(key) =>
      match FirstUsable(Candidates(LinuxFonts(bold, italic), key), size, pathExists, fontLoads)
      case Some(p) => Ok(TrueType(p, size))
      case None =>
        match FirstUsable(Candidates(WindowsFonts(bold, italic), key), size, pathExists, fontLoads)
        case Some(p) => Ok(TrueType(p, size))
        case None => Ok(DefaultFont)
  }

  /** `get_font(font_family, font_size, bold, italic)`: the Linux table's
      candidates are searched first, then the Windows table's, each by its
      own `for` loop with an early return. */
  method GetFont(family: Json, size: int, bold: bool, italic: bool,
                 pathExists: string -> bool, fontLoads: (string, int) -> bool)
    returns (font: Result<Font>)
    ensures font == ResolveFont(family, size, bold, italic, pathExists, fontLoads)
  {
    var linuxFonts := LinuxFonts(bold, italic);
    var windowsFonts := WindowsFonts(bold, italic);
    var key :- FamilyKey(family);

    var found := SearchCandidates(Candidates(linuxFonts, key), size, pathExists, fontLoads);
    if found.Some? {
      return Ok(TrueType(found.value, size));
    }
    found := SearchCandidates(Candidates(windowsFonts, key), size, pathExists, fontLoads);
    if found.Some? {
      return Ok(TrueType(found.value, size));
    }
    return Ok(DefaultFont);
  }

  /** One of the two `for path in font_list` loops: the first candidate that
      is present, on disk and loadable is returned at once. */
  method SearchCandidates(paths: seq<Option<string>>, size: int,
                          pathExists: string -> bool, fontLoads: (string, int) -> bool)
    returns (found: Option<string>)
    ensures found == FirstUsable(paths, size, pathExists, fontLoads)
  {
    for i := 0 to |paths|
      invariant forall j :: 0 <= j < i ==> !Usable(paths[j], size, pathExists, fontLoads)
    {
      var path := paths[i];
      if path.Some? && path.value != "" && pathExists(path.value) {
        if fontLoads(path.value, size) {
          FirstUsableAt(paths, i, size, pathExists, fontLoads);
          return Some(path.value);
        }
      }
    }
    NoneUsable(paths, size, pathExists, fontLoads);
    return None;
  }

  /** A usable candidate preceded only by unusable ones is the one found. */
  lemma {:induction false} FirstUsableAt(paths: seq<Option<string>>, i: nat, size: int,
                                         pathExists: string -> bool, fontLoads: (string, int) -> bool)
    requires i < |paths| && Usable(paths[i], size, pathExists, fontLoads)
    requires forall j :: 0 <= j < i ==> !Usable(paths[j], size, pathExists, fontLoads)
    ensures FirstUsable(paths, size, pathExists, fontLoads) == Some(paths[i].value)
  {
    if i > 0 {
      FirstUsableAt(paths[1..], i - 1, size, pathExists, fontLoads);
    }
  }

  /** The search finds nothing exactly when no candidate is usable. */
  lemma {:induction false} NoneUsable(paths: seq<Option<string>>, size: int,
                                      pathExists: string -> bool, fontLoads: (string, int) -> bool)
    ensures FirstUsable(paths, size, pathExists, fontLoads).None?
        <==> forall j :: 0 <= j < |paths| ==> !Usable(paths[j], size, pathExists, fontLoads)
  {
    if paths != [] {
      NoneUsable(paths[1..], size, pathExists, fontLoads);
      assert forall j :: 1 <= j < |paths| ==> paths[j] == paths[1..][j - 1];
    }
  }

  /** Whatever the search finds is a usable candidate of the list, and every
      candidate before it is unusable. */
  lemma {:induction false} FirstUsableSound(paths: seq<Option<string>>, size: int,
                                            pathExists: string -> bool, fontLoads: (string, int) -> bool)
    requires FirstUsable(paths, size, pathExists, fontLoads).Some?
    ensures exists i ::
              && 0 <= i < |paths| && Usable(paths[i], size, pathExists, fontLoads)
              && paths[i] == Some(FirstUsable(paths, size, pathExists, fontLoads).value)
              && forall j :: 0 <= j < i ==> !Usable(paths[j], size, pathExists, fontLoads)
  {
    if !Usable(paths[0], size, pathExists, fontLoads) {
      FirstUsableSound(paths[1..], size, pathExists, fontLoads);
      var i :| && 0 <= i < |paths[1..]| && Usable(paths[1..][i], size, pathExists, fontLoads)
               && paths[1..][i] == Some(FirstUsable(paths[1..], size, pathExists, fontLoads).value)
               && forall j :: 0 <= j < i ==> !Usable(paths[1..][j], size, pathExists, fontLoads);
      assert forall j :: 1 <= j < i + 1 ==> paths[j] == paths[1..][j - 1];
      assert paths[i + 1] == paths[1..][i];
    }
  }

  /** Searching two lists one after the other is searching their
      concatenation. */
  lemma {:induction false} FirstUsableAppend(a: seq<Option<string>>, b: seq<Option<string>>, size: int,
                                             pathExists: string -> bool, fontLoads: (string, int) -> bool)
    ensures FirstUsable(a + b, size, pathExists, fontLoads)
         == if FirstUsable(a, size, pathExists, fontLoads).Some? then FirstUsable(a, size, pathExists, fontLoads)
            else FirstUsable(b, size, pathExists, fontLoads)
  {
    if a != [] {
      assert (a + b)[1..] == a[1..] + b;
      FirstUsableAppend(a[1..], b, size, pathExists, fontLoads);
    } else {
      assert a + b == b;
    }
  }

  /** The whole search order of `get_font`: the Linux list of the family
      (or of 'Arial') followed by its Windows list (or that of 'Arial'). */
  function SearchOrder(key: Option<string>, bold: bool, italic: bool): seq<Option<string>> {
    Candidates(LinuxFonts(bold, italic), key) + Candidates(WindowsFonts(bold, italic), key)
  }

  /** `get_font` returns the first usable candidate of the combined search
      order, every Linux candidate coming before every Windows one, and the
      default font when none is usable. */
  lemma ResolveIsFirstInSearchOrder(family: Json, size: int, bold: bool, italic: bool,
                                    pathExists: string -> bool, fontLoads: (string, int) -> bool)
    requires FamilyKey(family).Ok?
    ensures ResolveFont(family, size, bold, italic, pathExists, fontLoads)
         == match FirstUsable(SearchOrder(FamilyKey(family).value, bold, italic), size, pathExists, fontLoads)
            case Some(p) => Ok(TrueType(p, size))
            case None => Ok(DefaultFont)
  {
    var key := FamilyKey(family).value;
    FirstUsableAppend(Candidates(LinuxFonts(bold, italic), key), Candidates(WindowsFonts(bold, italic), key),
                      size, pathExists, fontLoads);
  }

  /** `get_font` raises only for an unhashable family (a list or a dict);
      for every other family it returns a font. */
  lemma ResolveFailsOnlyForUnhashable(family: Json, size: int, bold: bool, italic: bool,
                                      pathExists: string -> bool, fontLoads: (string, int) -> bool)
    ensures ResolveFont(family, size, bold, italic, pathExists, fontLoads).Err?
        <==> family.JArr? || family.JObj?
    ensures ResolveFont(family, size, bold, italic, pathExists, fontLoads).Err? ==>
            ResolveFont(family, size, bold, italic, pathExists, fontLoads).error == TypeError
  {
  }

  /** The default font is returned exactly when every candidate of both
      tables is missing, absent from disk, or fails to load. */
  lemma {:induction false} DefaultOnlyWhenExhausted(family: Json, size: int, bold: bool, italic: bool,
                                                    pathExists: string -> bool, fontLoads: (string, int) -> bool)
    requires FamilyKey(family).Ok?
    ensures ResolveFont(family, size, bold, italic, pathExists, fontLoads) == Ok(DefaultFont)
        <==> forall j :: 0 <= j < |SearchOrder(FamilyKey(family).value, bold, italic)| ==>
               !Usable(SearchOrder(FamilyKey(family).value, bold, italic)[j], size, pathExists, fontLoads)
  {
    ResolveIsFirstInSearchOrder(family, size, bold, italic, pathExists, fontLoads);
    NoneUsable(SearchOrder(FamilyKey(family).value, bold, italic), size, pathExists, fontLoads);
  }

  /** A Windows file is returned only when no Linux candidate is usable. */
  lemma {:induction false} WindowsOnlyAfterLinux(family: Json, size: int, bold: bool, italic: bool,
                                                 pathExists: string -> bool, fontLoads: (string, int) -> bool)
    requires FamilyKey(family).Ok?
    requires exists j :: 0 <= j < |Candidates(LinuxFonts(bold, italic), FamilyKey(family).value)|
               && Usable(Candidates(LinuxFonts(bold, italic), FamilyKey(family).value)[j], size, pathExists, fontLoads)
    ensures ResolveFont(family, size, bold, italic, pathExists, fontLoads).Ok?
    ensures ResolveFont(family, size, bold, italic, pathExists, fontLoads).value.TrueType?
    ensures Some(ResolveFont(family, size, bold, italic, pathExists, fontLoads).value.path)
            in Candidates(LinuxFonts(bold, italic), FamilyKey(family).value)
  {
    var linux := Candidates(LinuxFonts(bold, italic), FamilyKey(family).value);
    NoneUsable(linux, size, pathExists, fontLoads);
    FirstUsableSound(linux, size, pathExists, fontLoads);
  }

  /** A family missing from a table is looked up as 'Arial' in that table. */
  lemma UnknownFamilyUsesArial(table: FontTable, key: Option<string>)
    requires "Arial" in table
    requires key.None? || key.value !in table
    ensures Candidates(table, key) == table["Arial"]
  {
  }

  /** Every family of either table lists its regular face first. */
  function RegularFace(table: FontTable, key: Option<string>): (r: Option<string>)
    ensures Candidates(table, key) != [] ==> r == Candidates(table, key)[0]
  {
    var c := Candidates(table, key);
    if c == [] then None else c[0]
  }

  /** The first entry of every family's Linux list is its regular face:
      always present, and the same file whatever weight and slant are
      requested. */
  lemma LinuxRegularFaceStyleFree(bold: bool, italic: bool, key: Option<string>)
    ensures RegularFace(LinuxFonts(bold, italic), key).Some?
    ensures RegularFace(LinuxFonts(bold, italic), key) == RegularFace(LinuxFonts(false, false), key)
  {
  }

  /** Likewise for every family's Windows list. */
  lemma WindowsRegularFaceStyleFree(bold: bool, italic: bool, key: Option<string>)
    ensures RegularFace(WindowsFonts(bold, italic), key).Some?
    ensures RegularFace(WindowsFonts(bold, italic), key) == RegularFace(WindowsFonts(false, false), key)
  {
  }

  /** The style flags only add variants after the regular face: whenever
      the family's regular Linux file exists and loads, that file is the
      font returned, bold or italic requested or not. */
  lemma RegularFaceWins(family: Json, size: int, bold: bool, italic: bool,
                        pathExists: string -> bool, fontLoads: (string, int) -> bool)
    requires FamilyKey(family).Ok?
    requires Usable(RegularFace(LinuxFonts(false, false), FamilyKey(family).value), size, pathExists, fontLoads)
    ensures ResolveFont(family, size, bold, italic, pathExists, fontLoads)
         == Ok(TrueType(RegularFace(LinuxFonts(false, false), FamilyKey(family).value).value, size))
  {
    LinuxRegularFaceStyleFree(bold, italic, FamilyKey(family).value);
  }

  /** The same holds in the Windows table once every Linux candidate has
      failed: the family's regular Windows file, when it exists and loads,
      is returned, bold or italic requested or not. */
  lemma RegularWindowsFaceWins(family: Json, size: int, bold: bool, italic: bool,
                               pathExists: string -> bool, fontLoads: (string, int) -> bool)
    requires FamilyKey(family).Ok?
    requires FirstUsable(Candidates(LinuxFonts(bold, italic), FamilyKey(family).value), size, pathExists, fontLoads).None?
    requires Usable(RegularFace(WindowsFonts(false, false), FamilyKey(family).value), size, pathExists, fontLoads)
    ensures ResolveFont(family, size, bold, italic, pathExists, fontLoads)
         == Ok(TrueType(RegularFace(WindowsFonts(false, false), FamilyKey(family).value).value, size))
  {
    WindowsRegularFaceStyleFree(bold, italic, FamilyKey(family).value);
  }

  /** Without bold or italic, every candidate but the regular faces is
      `None`, so the result is a regular face or the default font. */
  lemma {:induction false} PlainRequestGetsRegularFace(family: Json, size: int,
                                                       pathExists: string -> bool, fontLoads: (string, int) -> bool)
    requires FamilyKey(family).Ok?
    ensures var key := FamilyKey(family).value;
            var r := ResolveFont(family, size, false, false, pathExists, fontLoads);
            || r == Ok(DefaultFont)
            || r == Ok(TrueType(RegularFace(LinuxFonts(false, false), key).value, size))
            || r == Ok(TrueType(RegularFace(WindowsFonts(false, false), key).value, size))
  {
    var key := FamilyKey(family).value;
    var linux := Candidates(LinuxFonts(false, false), key);
    var windows := Candidates(WindowsFonts(false, false), key);
    assert forall j :: 1 <= j < |linux| ==> linux[j].None?;
    assert forall j :: 1 <= j < |windows| ==> windows[j].None?;
    if FirstUsable(linux, size, pathExists, fontLoads).Some? {
      FirstUsableSound(linux, size, pathExists, fontLoads);
    } else if FirstUsable(windows, size, pathExists, fontLoads).Some? {
      FirstUsableSound(windows, size, pathExists, fontLoads);
    }
  }
}
