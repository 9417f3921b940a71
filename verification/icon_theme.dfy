/** `IconTheme` from src/icon-theme.ts: the icon a file-icon theme gives a
    file or a folder, looked up by name, by compound extension (longest
    first), by language and by directory, with layered fallbacks; and the
    decoding of font glyphs when a theme is loaded. A theme's tables are
    JSON objects that may be absent (`None`); a looked-up value counts
    only when it is a non-empty string, as `||` in the source decides.
    `getLanguage`, which searches the installed extensions, is a function
    the caller supplies. */
module IconTheme {

  import opened Wrappers
  import opened Text

  const TypeError := "TypeError"

  type Table = Option<map<string, string>>

  /** `table?.[key]` */
  function At(t: Table, key: string): Option<string> {
    if t.Some? && key in t.value then Some(t.value[key]) else None
  }

  predicate Truthy(v: Option<string>) {
    v.Some? && v.value != ""
  }

  /** `a || b`: truthy exactly when one of the two is, and then the first
      truthy one. */
  function Or(a: Option<string>, b: Option<string>): (r: Option<string>)
    ensures Truthy(r) <==> Truthy(a) || Truthy(b)
    ensures Truthy(r) ==> r == a || r == b
    ensures Truthy(a) ==> r == a
    ensures !Truthy(a) ==> r == b
  {
    if Truthy(a) then a else b
  }

  /** An icon definition as the theme file gives it. */
  datatype RawDef =
    | RawImage(iconPath: string)
    | RawFont(fontCharacter: string, fontColor: Option<string>, fontId: Option<string>)

  /** An icon definition once the theme is loaded: the glyph of a font icon
      is one UTF-16 code unit. */
  datatype Def =
    | Image(iconPath: string)
    | Glyph(code: nat, fontColor: Option<string>, fontId: Option<string>)

  datatype Font = Font(id: string)

  /** `ThemeData`, over the kind of its icon definitions. */
  datatype ThemeData<D> = ThemeData(
    iconDefinitions: Option<map<string, D>>,
    fonts: Option<seq<Font>>,
    file: Option<string>,
    folder: Option<string>,
    folderExpanded: Option<string>,
    rootFolder: Option<string>,
    rootFolderExpanded: Option<string>,
    folderNames: Table,
    folderNamesExpanded: Table,
    rootFolderNames: Table,
    rootFolderNamesExpanded: Table,
    languageIds: Table,
    fileExtensions: Table,
    fileNames: Table)

  type Theme = ThemeData<Def>

  // ---------------------------------------------------------------------
  // Loading: fontCharacter decoding
  // ---------------------------------------------------------------------

  /** The white space `parseInt` skips before a number. */
  predicate IsJsSpace(c: char) {
    c == ' ' || c == '\t' || c == '\n' || c == '\r' || c == '\U{000B}' || c == '\U{000C}' ||
    c == '\U{00A0}' || c == '\U{1680}' || ('\U{2000}' <= c <= '\U{200A}') || c == '\U{2028}' ||
    c == '\U{2029}' || c == '\U{202F}' || c == '\U{205F}' || c == '\U{3000}' || c == '\U{FEFF}'
  }

  function TrimStart(s: string): (t: string)
    ensures |t| <= |s|
    ensures |t| > 0 ==> !IsJsSpace(t[0])
  {
    if |s| > 0 && IsJsSpace(s[0]) then TrimStart(s[1..]) else s
  }

  /** The length of the run of hexadecimal digits at the start of `s`. */
  function HexRun(s: string): (n: nat)
    ensures n <= |s|
    ensures forall k :: 0 <= k < n ==> IsHexDigit(s[k])
    ensures n < |s| ==> !IsHexDigit(s[n])
  {
    if |s| == 0 || !IsHexDigit(s[0]) then 0 else HexRun(s[1..]) + 1
  }

  /** The value of a run of hexadecimal digits. */
  function HexValue(s: string): nat
    requires forall k :: 0 <= k < |s| ==> IsHexDigit(s[k])
  {
    if |s| == 0 then 0 else HexValue(s[..|s| - 1]) * 16 + HexDigitValue(s[|s| - 1])
  }

  /** `parseInt(s, 16)`: white space, an optional sign, an optional `0x`,
      then the longest run of hex digits; NaN (`None`) when that run is
      empty. */
  function ParseIntHex(s: string): (r: Option<int>) {
    var t := TrimStart(s);
    var negative := |t| > 0 && t[0] == '-';
    var u := if |t| > 0 && (t[0] == '-' || t[0] == '+') then t[1..] else t;
    var w := if |u| >= 2 && u[0] == '0' && (u[1] == 'x' || u[1] == 'X') then u[2..] else u;
    var v := HexPrefixValue(w);
    if v.None? then None else Some(if negative then -(v.value as int) else v.value)
  }

  /** The value of the hex digits `s` starts with; `None` when there are
      none. */
  function HexPrefixValue(s: string): Option<nat> {
    var n := HexRun(s);
    if n == 0 then None else Some(HexValue(s[..n]))
  }

  /** `String.fromCharCode(parseInt(c.slice(1), 16))`: the code unit is the
      number modulo 2^16, and NaN gives 0. */
  function FontCode(fontCharacter: string): (code: nat)
    ensures code < 0x10000
  {
    var v := ParseIntHex(if |fontCharacter| >= 1 then fontCharacter[1..] else "");
    if v.None? then 0 else v.value % 0x10000
  }

  function DecodeDef(d: RawDef): Def {
    match d
    case RawImage(p) => Image(p)
    case RawFont(c, color, id) => Glyph(FontCode(c), color, id)
  }

  /** The `IconTheme` constructor's effect on the theme: every font
      definition's glyph is decoded and nothing else changes.
      `Object.values` of absent definitions throws. */
  function DecodeTheme(raw: ThemeData<RawDef>): Result<Theme> {
    if raw.iconDefinitions.None? then Failure(TypeError)
    else
      var defs := raw.iconDefinitions.value;
      Success(ThemeData(Some(map k | k in defs :: DecodeDef(defs[k])), raw.fonts, raw.file, raw.folder,
                        raw.folderExpanded, raw.rootFolder, raw.rootFolderExpanded, raw.folderNames,
                        raw.folderNamesExpanded, raw.rootFolderNames, raw.rootFolderNamesExpanded,
                        raw.languageIds, raw.fileExtensions, raw.fileNames))
  }

  /** The constructor's loop over the definitions. */
  method Construct(raw: ThemeData<RawDef>) returns (r: Result<Theme>)
    ensures r == DecodeTheme(raw)
  {
    if raw.iconDefinitions.None? {
      return Failure(TypeError);
    }
    var defs := raw.iconDefinitions.value;
    var done: map<string, Def> := map[];
    var todo := defs.Keys;
    while todo != {}
      invariant todo <= defs.Keys
      invariant done.Keys == defs.Keys - todo
      invariant forall k :: k in done ==> done[k] == DecodeDef(defs[k])
      decreases todo
    {
      var k :| k in todo;
      done := done[k := DecodeDef(defs[k])];
      todo := todo - {k};
    }
    assert done == map k | k in defs :: DecodeDef(defs[k]);
    r := Success(ThemeData(Some(done), raw.fonts, raw.file, raw.folder,
                           raw.folderExpanded, raw.rootFolder, raw.rootFolderExpanded, raw.folderNames,
                           raw.folderNamesExpanded, raw.rootFolderNames, raw.rootFolderNamesExpanded,
                           raw.languageIds, raw.fileExtensions, raw.fileNames));
  }

  lemma {:induction false} HexRunOfHex(h: string)
    requires forall k :: 0 <= k < |h| ==> IsHexDigit(h[k])
    ensures HexRun(h) == |h|
  {
    if |h| > 0 {
      HexRunOfHex(h[1..]);
    }
  }

  /** A glyph written as one character and hex digits decodes to the
      digits' value, modulo 2^16. */
  lemma FontCodeOfHex(c: char, h: string)
    requires |h| >= 1 && forall k :: 0 <= k < |h| ==> IsHexDigit(h[k])
    ensures FontCode([c] + h) == HexValue(h) % 0x10000
  {
    assert ([c] + h)[1..] == h;
    ParseIntHexOfHex(h);
  }

  lemma ParseIntHexOfHex(h: string)
    requires |h| >= 1 && forall k :: 0 <= k < |h| ==> IsHexDigit(h[k])
    ensures ParseIntHex(h) == Some(HexValue(h) as int)
  {
    PlainHexStart(h);
    HexPrefixOfHex(h);
  }

  /** Text starting with a hex digit other than a `0x` prefix parses as
      its leading run of digits. */
  lemma PlainHexStart(h: string)
    requires |h| >= 1 && IsHexDigit(h[0]) && (|h| >= 2 ==> IsHexDigit(h[1]))
    ensures HexPrefixValue(h).Some? && ParseIntHex(h) == Some(HexPrefixValue(h).value as int)
  {
    assert TrimStart(h) == h;
  }

  lemma HexPrefixOfHex(h: string)
    requires |h| >= 1 && forall k :: 0 <= k < |h| ==> IsHexDigit(h[k])
    ensures HexPrefixValue(h) == Some(HexValue(h))
  {
    HexRunOfHex(h);
    assert h[..|h|] == h;
  }

  /** A glyph whose text after its first character does not start a
      number decodes to code unit 0. */
  lemma FontCodeNotANumber(c: char, h: string)
    requires |h| >= 1 && !IsHexDigit(h[0]) && !IsJsSpace(h[0]) && h[0] != '-' && h[0] != '+'
    ensures FontCode([c] + h) == 0
  {
    assert ([c] + h)[1..] == h;
  }

  /** Loading keeps every definition, images as they are, and decodes each
      glyph on its own. */
  lemma DecodeKeepsDefinitions(raw: ThemeData<RawDef>, key: string)
    requires raw.iconDefinitions.Some? && key in raw.iconDefinitions.value
    ensures DecodeTheme(raw).Success?
    ensures var d := raw.iconDefinitions.value[key];
      var t := DecodeTheme(raw).value;
      && t.iconDefinitions.Some?
      && t.iconDefinitions.value.Keys == raw.iconDefinitions.value.Keys
      && (d.RawImage? ==> t.iconDefinitions.value[key] == Image(d.iconPath))
      && (d.RawFont? ==> t.iconDefinitions.value[key] == Glyph(FontCode(d.fontCharacter), d.fontColor, d.fontId))
  {
  }

  // ---------------------------------------------------------------------
  // File icons
  // ---------------------------------------------------------------------

  /** `getLanguageIcon(ext)`: `lang && languageIds[lang]`. */
  function LanguageIcon(theme: Theme, ext: string, language: string -> Option<string>): Option<string> {
    var lang := language(ext);
    if Truthy(lang) then At(theme.languageIds, lang.value) else lang
  }

  /** The `fileExtensions` lookup of one step: `getFileIcon` looks up the
      extension; `getFileIconForUri` (with its directory) looks up the
      extension, then `dir/ext`, and only when the table exists. */
  function ExtensionIcon(theme: Theme, ext: string, dir: Option<string>): Option<string> {
    if dir.None? then At(theme.fileExtensions, ext)
    else if theme.fileExtensions.None? then None
    else Or(At(theme.fileExtensions, ext), At(theme.fileExtensions, dir.value + "/" + ext))
  }

  /** What one step of the extension loop finds for `ext`: a language icon
      first, when there is a language table, then the extension tables. */
  function StepIcon(theme: Theme, ext: string, dir: Option<string>, language: string -> Option<string>): Option<string> {
    if theme.languageIds.Some? && Truthy(LanguageIcon(theme, ext, language)) then LanguageIcon(theme, ext, language)
    else ExtensionIcon(theme, ext, dir)
  }

  /** The extension loop on the dot-separated parts of a name: drop the
      first part, try the rest joined by dots, and go on while nothing is
      found and more than one part is left. The result is what was found,
      or `None`. */
  function Search(theme: Theme, parts: seq<string>, dir: Option<string>, language: string -> Option<string>): (r: Option<string>)
    ensures r.None? || Truthy(r)
    decreases |parts|
  {
    if |parts| <= 1 then None
    else
      var found := StepIcon(theme, Join(parts[1..], "."), dir, language);
      if Truthy(found) then found else Search(theme, parts[1..], dir, language)
  }

  /** `getFileIcon(name)`; reading `fileNames` of a theme without it throws. */
  function FileIcon(theme: Theme, name: string, language: string -> Option<string>): Result<Option<string>> {
    if theme.fileNames.None? then Failure(TypeError)
    else
      var icon := At(theme.fileNames, name);
      if Truthy(icon) then Success(icon)
      else if theme.fileExtensions.None? && theme.languageIds.None? then Success(theme.file)
      else Success(Or(Search(theme, Split(name, '.'), None, language), theme.file))
  }

  /** The loop of `getFileIcon` and `getFileIconForUri`, from `icon`
      (nothing found yet) over `exts`. */
  method ExtensionLoop(theme: Theme, parts: seq<string>, dir: Option<string>, language: string -> Option<string>,
                       icon0: Option<string>) returns (icon: Option<string>)
    requires !Truthy(icon0)
    ensures Truthy(icon) <==> Search(theme, parts, dir, language).Some?
    ensures Truthy(icon) ==> icon == Search(theme, parts, dir, language)
  {
    icon := icon0;
    var exts := parts;
    while !Truthy(icon) && |exts| > 1
      invariant Search(theme, parts, dir, language) ==
        (if Truthy(icon) then icon else Search(theme, exts, dir, language))
      decreases |exts|
    {
      var rest := exts[1..];
      exts := rest;
      var ext := Join(exts, ".");
      if theme.languageIds.Some? {
        icon := LanguageIcon(theme, ext, language);
        if Truthy(icon) {
          return;
        }
      }
      if dir.None? {
        icon := At(theme.fileExtensions, ext);
      } else if theme.fileExtensions.Some? {
        icon := Or(At(theme.fileExtensions, ext), At(theme.fileExtensions, dir.value + "/" + ext));
      }
    }
  }

  /** `getFileIcon(name)` as the source runs it. */
  method GetFileIcon(theme: Theme, name: string, language: string -> Option<string>) returns (r: Result<Option<string>>)
    ensures r == FileIcon(theme, name, language)
  {
    if theme.fileNames.None? {
      return Failure(TypeError);
    }
    var icon := At(theme.fileNames, name);
    if !Truthy(icon) && (theme.fileExtensions.Some? || theme.languageIds.Some?) {
      icon := ExtensionLoop(theme, Split(name, '.'), None, language, icon);
    }
    r := Success(Or(icon, theme.file));
  }

  /** The path components `getFileIconForUri` uses: the last, the last two
      joined by `/`, and the one before the last (`undefined` when there is
      none, which the key `${dir}/${ext}` spells out). */
  function LastComponent(comps: seq<string>): string
    requires |comps| >= 1
  {
    comps[|comps| - 1]
  }

  function LastTwo(comps: seq<string>): string
    requires |comps| >= 1
  {
    if |comps| >= 2 then comps[|comps| - 2] + "/" + comps[|comps| - 1] else comps[0]
  }

  function ParentComponent(comps: seq<string>): string
    requires |comps| >= 1
  {
    if |comps| >= 2 then comps[|comps| - 2] else "undefined"
  }

  /** `getFileIconForUri(uri)`, on the URI's file-system path. */
  function FileIconForPath(theme: Theme, fsPath: string, language: string -> Option<string>): Result<Option<string>> {
    if theme.fileNames.None? then Failure(TypeError)
    else
      var comps := Split(fsPath, '/');
      var last := LastComponent(comps);
      var icon := Or(At(theme.fileNames, LastTwo(comps)), At(theme.fileNames, last));
      if Truthy(icon) then Success(icon)
      else if theme.fileExtensions.None? && theme.languageIds.None? then Success(theme.file)
      else Success(Or(Search(theme, Split(last, '.'), Some(ParentComponent(comps)), language), theme.file))
  }

  /** `getFileIconForUri(uri)` as the source runs it. */
  method GetFileIconForPath(theme: Theme, fsPath: string, language: string -> Option<string>) returns (r: Result<Option<string>>)
    ensures r == FileIconForPath(theme, fsPath, language)
  {
    if theme.fileNames.None? {
      return Failure(TypeError);
    }
    var comps := Split(fsPath, '/');
    var last := LastComponent(comps);
    var icon := Or(At(theme.fileNames, LastTwo(comps)), At(theme.fileNames, last));
    if !Truthy(icon) && (theme.fileExtensions.Some? || theme.languageIds.Some?) {
      icon := ExtensionLoop(theme, Split(last, '.'), Some(ParentComponent(comps)), language, icon);
    }
    r := Success(Or(icon, theme.file));
  }

  // ---------------------------------------------------------------------
  // Properties of file icons
  // ---------------------------------------------------------------------

  /** The extension loop returns what the first successful step finds: the
      parts are dropped from the front, so the longest compound extension
      is tried first. */
  lemma {:induction false} SearchFirstHit(theme: Theme, parts: seq<string>, dir: Option<string>,
                                          language: string -> Option<string>, k: nat)
    requires 1 <= k < |parts|
    requires Truthy(StepIcon(theme, Join(parts[k..], "."), dir, language))
    requires forall j :: 1 <= j < k ==> !Truthy(StepIcon(theme, Join(parts[j..], "."), dir, language))
    ensures Search(theme, parts, dir, language) == StepIcon(theme, Join(parts[k..], "."), dir, language)
  {
    if k > 1 {
      assert !Truthy(StepIcon(theme, Join(parts[1..], "."), dir, language));
      var rest := parts[1..];
      assert rest[k - 1..] == parts[k..];
      forall j | 1 <= j < k - 1
        ensures !Truthy(StepIcon(theme, Join(rest[j..], "."), dir, language))
      {
        assert rest[j..] == parts[j + 1..];
      }
      SearchFirstHit(theme, rest, dir, language, k - 1);
    }
  }

  /** When no step finds anything, the loop finds nothing. */
  lemma {:induction false} SearchMiss(theme: Theme, parts: seq<string>, dir: Option<string>,
                                      language: string -> Option<string>)
    requires forall j :: 1 <= j < |parts| ==> !Truthy(StepIcon(theme, Join(parts[j..], "."), dir, language))
    ensures Search(theme, parts, dir, language) == None
  {
    if |parts| > 1 {
      var rest := parts[1..];
      forall j | 1 <= j < |rest|
        ensures !Truthy(StepIcon(theme, Join(rest[j..], "."), dir, language))
      {
        assert rest[j..] == parts[j + 1..];
      }
      SearchMiss(theme, rest, dir, language);
    }
  }

  /** An exact file name match wins over everything else. */
  lemma ExactNameWins(theme: Theme, name: string, language: string -> Option<string>)
    requires Truthy(At(theme.fileNames, name))
    ensures FileIcon(theme, name, language) == Success(At(theme.fileNames, name))
  {
  }

  /** A name without a dot never reaches the extension tables: it gets its
      file name entry or the default file icon. */
  lemma NameWithoutDot(theme: Theme, name: string, language: string -> Option<string>)
    requires theme.fileNames.Some? && '.' !in name
    ensures FileIcon(theme, name, language) == Success(Or(At(theme.fileNames, name), theme.file))
  {
    assert IndexOf(name, '.') == -1;
    assert Split(name, '.') == [name];
  }

  /** A language icon for the extension beats the extension table, and the
      extension beats its directory-qualified form. */
  lemma StepPrecedence(theme: Theme, ext: string, d: string, language: string -> Option<string>)
    ensures theme.languageIds.Some? && Truthy(LanguageIcon(theme, ext, language)) ==>
      StepIcon(theme, ext, Some(d), language) == LanguageIcon(theme, ext, language) &&
      StepIcon(theme, ext, None, language) == LanguageIcon(theme, ext, language)
    ensures Truthy(At(theme.fileExtensions, ext)) ==>
      ExtensionIcon(theme, ext, Some(d)) == At(theme.fileExtensions, ext)
    ensures !Truthy(At(theme.fileExtensions, ext)) && theme.fileExtensions.Some? ==>
      ExtensionIcon(theme, ext, Some(d)) == At(theme.fileExtensions, d + "/" + ext)
  {
  }

  /** The directory-qualified name beats the bare name for a path. */
  lemma QualifiedNameWins(theme: Theme, fsPath: string, language: string -> Option<string>)
    requires Truthy(At(theme.fileNames, LastTwo(Split(fsPath, '/'))))
    ensures FileIconForPath(theme, fsPath, language) == Success(At(theme.fileNames, LastTwo(Split(fsPath, '/'))))
  {
  }

  /** A path of one component qualifies its extensions with `undefined`. */
  lemma BarePathParent(fsPath: string)
    requires '/' !in fsPath
    ensures ParentComponent(Split(fsPath, '/')) == "undefined"
    ensures LastTwo(Split(fsPath, '/')) == fsPath
  {
    assert IndexOf(fsPath, '/') == -1;
  }

  // ---------------------------------------------------------------------
  // Folder icons
  // ---------------------------------------------------------------------

  /** `expanded && value`: nothing when not expanded. */
  function WhenExpanded(expanded: bool, v: Option<string>): Option<string> {
    if expanded then v else None
  }

  /** `getFolderIcon(name, expanded)` */
  function FolderIcon(theme: Theme, name: string, expanded: bool): Option<string> {
    Or(WhenExpanded(expanded, At(theme.folderNamesExpanded, name)),
    Or(At(theme.folderNames, name),
    Or(WhenExpanded(expanded, theme.folderExpanded),
       theme.folder)))
  }

  /** `getRootFolderIcon(name, expanded)` */
  function RootFolderIcon(theme: Theme, name: string, expanded: bool): Option<string> {
    Or(WhenExpanded(expanded, At(theme.rootFolderNamesExpanded, name)),
    Or(At(theme.rootFolderNames, name),
    Or(WhenExpanded(expanded, At(theme.folderNamesExpanded, name)),
    Or(At(theme.folderNames, name),
    Or(WhenExpanded(expanded, theme.rootFolderExpanded),
    Or(theme.rootFolder,
    Or(WhenExpanded(expanded, theme.folderExpanded),
       theme.folder)))))))
  }

  /** A collapsed folder's icon does not depend on the expanded tables. */
  lemma CollapsedIgnoresExpanded(theme: Theme, name: string, names: Table, icon: Option<string>)
    ensures FolderIcon(theme.(folderNamesExpanded := names, folderExpanded := icon), name, false) ==
      FolderIcon(theme, name, false)
  {
  }

  /** A folder name entry beats the expanded default icon, and the
      expanded name entry beats both. */
  lemma FolderPrecedence(theme: Theme, name: string)
    ensures Truthy(At(theme.folderNamesExpanded, name)) ==>
      FolderIcon(theme, name, true) == At(theme.folderNamesExpanded, name)
    ensures !Truthy(At(theme.folderNamesExpanded, name)) && Truthy(At(theme.folderNames, name)) ==>
      FolderIcon(theme, name, true) == At(theme.folderNames, name)
    ensures !Truthy(At(theme.folderNames, name)) ==>
      FolderIcon(theme, name, false) == theme.folder
  {
  }

  /** Without root-specific entries a root folder gets the icon an ordinary
      folder of that name gets. */
  lemma RootFallsBackToFolder(theme: Theme, name: string, expanded: bool)
    requires !Truthy(At(theme.rootFolderNamesExpanded, name)) && !Truthy(At(theme.rootFolderNames, name))
    requires !Truthy(theme.rootFolderExpanded) && !Truthy(theme.rootFolder)
    ensures RootFolderIcon(theme, name, expanded) == FolderIcon(theme, name, expanded)
  {
  }

  /** The root name tables beat every folder table. */
  lemma RootNameWins(theme: Theme, name: string, expanded: bool)
    requires Truthy(At(theme.rootFolderNames, name))
    requires !expanded || !Truthy(At(theme.rootFolderNamesExpanded, name))
    ensures RootFolderIcon(theme, name, expanded) == At(theme.rootFolderNames, name)
  {
  }

  /** `getFolderIconForUri(uri, expanded, root)`, on file-system paths. A
      path under the root (by text prefix) gets the root folder icon for
      the name `root.slice(root.length)`, which is always empty. */
  function FolderIconForPath(theme: Theme, fsPath: string, expanded: bool, root: Option<string>): Option<string> {
    if root.Some? && StartsWith(fsPath, root.value) then
      RootFolderIcon(theme, root.value[|root.value|..], expanded)
    else
      var comps := Split(fsPath, '/');
      var last2 := LastTwo(comps);
      Or(if expanded then At(theme.folderNamesExpanded, last2) else At(theme.folderNames, last2),
         FolderIcon(theme, LastComponent(comps), expanded))
  }

  /** Every folder under the root, the root itself and any sibling whose
      path merely starts with the root's path get the same icon, looked up
      under the empty name: the root name tables are never consulted for a
      real folder name. */
  lemma UnderRootUsesEmptyName(theme: Theme, fsPath: string, expanded: bool, root: string, key: string, icon: string)
    requires StartsWith(fsPath, root) && key != ""
    ensures FolderIconForPath(theme, fsPath, expanded, Some(root)) == RootFolderIcon(theme, "", expanded)
    ensures var t := theme.(rootFolderNames := Some(map[key := icon]));
      FolderIconForPath(t, fsPath, expanded, Some(root)) == FolderIconForPath(theme.(rootFolderNames := None), fsPath, expanded, Some(root))
  {
    assert root[|root|..] == "";
  }

  /** Outside the root the two-component name beats the folder name. */
  lemma QualifiedFolderWins(theme: Theme, fsPath: string, expanded: bool)
    requires var l2 := LastTwo(Split(fsPath, '/'));
      Truthy(if expanded then At(theme.folderNamesExpanded, l2) else At(theme.folderNames, l2))
    ensures var l2 := LastTwo(Split(fsPath, '/'));
      FolderIconForPath(theme, fsPath, expanded, None) ==
        (if expanded then At(theme.folderNamesExpanded, l2) else At(theme.folderNames, l2))
  {
  }

  // ---------------------------------------------------------------------
  // get_def
  // ---------------------------------------------------------------------

  /** What `get_def` returns for a definition: the image's web URI (as the
      given `webviewUri` of its path), or the font, the glyph and the colour
      style. */
  datatype Rendered =
    | ImageIcon(icon: string)
    | FontIcon(font: string, glyph: nat, style: Option<string>)

  /** `get_def(webview, icon)`: nothing for a missing or unknown icon. A
      glyph without a font id takes the first font's, and reading that
      throws when there are no fonts. */
  function GetDef(theme: Theme, icon: Option<string>, webviewUri: string -> string): (r: Result<Option<Rendered>>)
    ensures !Truthy(icon) ==> r == Success(None)
    ensures Truthy(icon) && theme.iconDefinitions.Some? && icon.value !in theme.iconDefinitions.value ==> r == Success(None)
    ensures Truthy(icon) && theme.iconDefinitions.None? ==> r == Failure(TypeError)
    ensures Truthy(icon) && theme.iconDefinitions.Some? && icon.value in theme.iconDefinitions.value &&
            theme.iconDefinitions.value[icon.value].Image? ==>
      r == Success(Some(ImageIcon(webviewUri(theme.iconDefinitions.value[icon.value].iconPath))))
  {
    if !Truthy(icon) then Success(None)
    else if theme.iconDefinitions.None? then Failure(TypeError)
    else if icon.value !in theme.iconDefinitions.value then Success(None)
    else match theme.iconDefinitions.value[icon.value]
      case Image(p) => Success(Some(ImageIcon(webviewUri(p))))
      case Glyph(code, color, id) =>
        var font :- if Truthy(id) then Success(id.value)
                    else if theme.fonts.None? || |theme.fonts.value| == 0 then Failure(TypeError)
                    else Success(theme.fonts.value[0].id);
        Success(Some(FontIcon(font, code, if Truthy(color) then Some("--icon-color: " + color.value) else None)))
  }

  /** A glyph's font is its own font id, else the first font's; the colour
      style is there exactly when the definition has a colour. */
  lemma GetDefGlyph(theme: Theme, icon: string, webviewUri: string -> string)
    requires icon != "" && theme.iconDefinitions.Some? && icon in theme.iconDefinitions.value
    requires theme.iconDefinitions.value[icon].Glyph?
    ensures var d := theme.iconDefinitions.value[icon];
      var r := GetDef(theme, Some(icon), webviewUri);
      && (Truthy(d.fontId) ==> r.Success? && r.value.Some? && r.value.value.font == d.fontId.value)
      && (!Truthy(d.fontId) && theme.fonts.Some? && |theme.fonts.value| > 0 ==>
            r.Success? && r.value.Some? && r.value.value.font == theme.fonts.value[0].id)
      && (!Truthy(d.fontId) && (theme.fonts.None? || |theme.fonts.value| == 0) ==> r == Failure(TypeError))
      && (r.Success? ==>
            r.value.Some? && r.value.value.glyph == d.code && (r.value.value.style.Some? <==> Truthy(d.fontColor)))
  {
  }
}
