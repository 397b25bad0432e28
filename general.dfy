/** The general-purpose page class `flisys`: it collects the CSS and JavaScript files a
    page needs and writes the HTML head and the end of the body around them. */
module General {
  import opened Php
  import opened Util

  // ---------------------------------------------------------------------------
  // File-name validation
  // ---------------------------------------------------------------------------

  /** A character of the class `[a-zA-Z0-9_.-]`. */
  predicate IsNameChar(c: char) {
    ('a' <= c <= 'z') || ('A' <= c <= 'Z') || ('0' <= c <= '9') || c == '_' || c == '.' || c == '-'
  }

  /** Every character of `t` is in `[a-zA-Z0-9_.-]`. */
  predicate OnlyNameChars(t: string) {
    forall k :: 0 <= k < |t| ==> IsNameChar(t[k])
  }

  /** `t` is, from its first to its last character, one or more characters of
      `[a-zA-Z0-9_.-]` followed by the literal extension `ext` (".css" or ".js"). */
  predicate IsAssetName(t: string, ext: string) {
    |t| > |ext| && t[|t| - |ext|..] == ext && forall k :: 0 <= k < |t| - |ext| ==> IsNameChar(t[k])
  }

  /** `preg_match("/^[a-zA-Z0-9_\.-]+\.EXT$/", s) >= 1`. Without the D modifier PCRE's `$`
      matches at the very end and also just before a final line feed. */
  predicate PregMatchAsset(s: string, ext: string)
    ensures PregMatchAsset(s, ext) ==> |s| > |ext|
  {
    IsAssetName(s, ext) || (|s| > 0 && s[|s| - 1] == '\n' && IsAssetName(s[..|s| - 1], ext))
  }

  const CssExt: string := ".css"
  const JsExt: string := ".js"

  /** The first test of `addCSS`: some content of at least 5 characters after trimming,
      and the trimmed name matches the stylesheet pattern. */
  predicate IsValidCssName(fileName: Option<string>)
    ensures IsValidCssName(fileName) ==> fileName.Some?
  {
    HasContentString(fileName, 5) && PregMatchAsset(Trim(fileName.value), CssExt)
  }

  /** The first test of `addJS`: some content of at least 4 characters after trimming,
      and the trimmed name matches the script pattern. */
  predicate IsValidJsName(fileName: Option<string>)
    ensures IsValidJsName(fileName) ==> fileName.Some?
  {
    HasContentString(fileName, 4) && PregMatchAsset(Trim(fileName.value), JsExt)
  }

  /** On a trimmed string the line-feed alternative of `$` never applies. */
  lemma PregMatchOnTrimmed(t: string, ext: string)
    requires IsTrimmed(t)
    ensures PregMatchAsset(t, ext) <==> IsAssetName(t, ext)
  {
  }

  /** A name that matches an asset pattern whose extension is made of name characters
      is made of name characters only, so it holds no whitespace at all. */
  lemma {:induction false} AssetNameChars(t: string, ext: string)
    requires OnlyNameChars(ext) && IsAssetName(t, ext)
    ensures OnlyNameChars(t) && IsTrimmed(t)
  {
    forall k | |t| - |ext| <= k < |t| ensures IsNameChar(t[k]) {
      assert t[k] == t[|t| - |ext|..][k - (|t| - |ext|)];
    }
  }

  /** For any extension: a non-null name passes "at least |ext|+1 characters after trimming
      and the trimmed name matches" exactly when its trimmed form is an asset name. The
      length test adds nothing, because a match already has a character before `ext`. */
  lemma {:induction false} ValidNameShape(fileName: Option<string>, ext: string)
    requires OnlyNameChars(ext)
    ensures (HasContentString(fileName, |ext| + 1) && PregMatchAsset(Trim(fileName.value), ext))
            <==> fileName.Some? && IsAssetName(Trim(fileName.value), ext)
    ensures fileName.Some? && PregMatchAsset(Trim(fileName.value), ext)
            ==> HasContentString(fileName, |ext| + 1)
    ensures fileName.Some? && IsAssetName(Trim(fileName.value), ext)
            ==> OnlyNameChars(Trim(fileName.value))
  {
    if fileName.Some? {
      var t := Trim(fileName.value);
      PregMatchOnTrimmed(t, ext);
      if IsAssetName(t, ext) { AssetNameChars(t, ext); }
    }
  }

  /** The length test of `addCSS` never rejects a name the pattern accepts:
      a match has at least one character before ".css". */
  lemma {:induction false} CssLengthCheckRedundant(s: string)
    ensures PregMatchAsset(Trim(s), CssExt) ==> HasContentString(Some(s), 5)
  {
    ValidNameShape(Some(s), CssExt);
  }

  /** The length test of `addJS` never rejects a name the pattern accepts:
      a match has at least one character before ".js". */
  lemma {:induction false} JsLengthCheckRedundant(s: string)
    ensures PregMatchAsset(Trim(s), JsExt) ==> HasContentString(Some(s), 4)
  {
    ValidNameShape(Some(s), JsExt);
  }

  /** What `addCSS` accepts, stated without PCRE or the length test: exactly the non-null
      names whose trimmed form is `[a-zA-Z0-9_.-]+\.css`; such a name has only name
      characters, so no whitespace anywhere. */
  lemma {:induction false} ValidCssNameShape(fileName: Option<string>)
    ensures IsValidCssName(fileName) <==> fileName.Some? && IsAssetName(Trim(fileName.value), CssExt)
    ensures IsValidCssName(fileName) ==> OnlyNameChars(Trim(fileName.value)) && IsTrimmed(Trim(fileName.value))
  {
    ValidNameShape(fileName, CssExt);
  }

  /** What `addJS` accepts: exactly the non-null names whose trimmed form is
      `[a-zA-Z0-9_.-]+\.js`; such a name has only name characters. */
  lemma {:induction false} ValidJsNameShape(fileName: Option<string>)
    ensures IsValidJsName(fileName) <==> fileName.Some? && IsAssetName(Trim(fileName.value), JsExt)
    ensures IsValidJsName(fileName) ==> OnlyNameChars(Trim(fileName.value)) && IsTrimmed(Trim(fileName.value))
  {
    ValidNameShape(fileName, JsExt);
  }

  // ---------------------------------------------------------------------------
  // The text the page writes
  // ---------------------------------------------------------------------------

  /** `DIRECTORY_SEPARATOR` on the Unix hosts the paths are written for. */
  const DirectorySeparator: string := "/"
  const JsPath: string := DirectorySeparator + "js"
  const CssPath: string := DirectorySeparator + "css"
  const SemanticPath: string := DirectorySeparator + "semantic"
  const SemanticCss: string := "semantic.min.css"

  const LinkOpen: string := "\t\t<link rel=\"stylesheet\" type=\"text/css\" href=\""

  function StylesheetLine(href: string): string {
    LinkOpen + href + "\">\n"
  }

  /** The link `printCSS` writes for a registered stylesheet. */
  function CssFileLine(name: string): string {
    StylesheetLine(CssPath + DirectorySeparator + name)
  }

  const SemanticCssLine: string := StylesheetLine(SemanticPath + DirectorySeparator + SemanticCss)

  function JsFileSrc(name: string): string {
    JsPath + DirectorySeparator + name
  }

  /** A script tag as written inside the head. */
  function HeadScriptLine(src: string): string {
    "\t\t<script src=\"" + src + "\"></script>\n"
  }

  /** A script tag as written at the end of the body. */
  function BodyScriptLine(src: string): string {
    "\t<script src=\"" + src + "\"></script>\n"
  }

  const JQueryLine: string := HeadScriptLine(JsPath + DirectorySeparator + "jquery.min.js")
  const SemanticJsLine: string := HeadScriptLine(SemanticPath + DirectorySeparator + "semantic.min.js")

  /** The fixed opening of every page: doctype, head and its meta tags. */
  const Preamble: seq<string> := [
    "<!DOCTYPE html>\n<html>\n\t<head>\n",
    "\t\t<meta charset=\"UTF-8\">\n",
    "\t\t<meta http-equiv=\"X-UA-Compatible\" content=\"IE=edge,chrome=1\">\n",
    "\t\t<meta name=\"viewport\" content=\"width=device-width, initial-scale=1.0, maximum-scale=1.0, user-scalable=yes\">\n",
    "\t\t<meta http-equiv=\"Cache-control\" content=\"no-store\">\n",
    "\t\t<meta http-equiv=\"Pragma\" content=\"no-cache\">\n",
    "\t\t<meta http-equiv=\"Expires\" content=\"0\">\n"
  ]
  const HeadClose: string := "\t</head>\n<body>\n\n"
  const BodyClose: string := "</body>\n"

  /** A registered script: its trimmed file name and whether it goes to the end of the body. */
  datatype JsFile = JsFile(name: string, toBottom: bool)

  /** One link per registered stylesheet, in registration order. */
  function CssFileLines(css: seq<string>): seq<string> {
    seq(|css|, k requires 0 <= k < |css| => CssFileLine(css[k]))
  }

  /** Everything `printCSS($add_semantic)` writes. */
  function CssLines(addSemantic: bool, css: seq<string>): seq<string> {
    (if addSemantic then [SemanticCssLine] else []) + CssFileLines(css)
  }

  /** What one pass of the `foreach` in `printJS` writes for the script `f`. */
  function JsFileLine(toHeader: bool, f: JsFile): seq<string> {
    if toHeader && !f.toBottom then [HeadScriptLine(JsFileSrc(f.name))]
    else if !toHeader && f.toBottom then [BodyScriptLine(JsFileSrc(f.name))]
    else []
  }

  /** What the `foreach` in `printJS` writes for the scripts `js`, in order. */
  function JsFileLines(toHeader: bool, js: seq<JsFile>): seq<string> {
    if js == [] then [] else JsFileLines(toHeader, js[..|js| - 1]) + JsFileLine(toHeader, js[|js| - 1])
  }

  /** One more pass of the loop writes one more script's lines. */
  lemma JsFileLinesStep(toHeader: bool, js: seq<JsFile>, i: nat)
    requires i < |js|
    ensures JsFileLines(toHeader, js[..i + 1]) == JsFileLines(toHeader, js[..i]) + JsFileLine(toHeader, js[i])
  {
    assert js[..i + 1][..i] == js[..i];
  }

  /** Everything `printJS($to_header, $add_jquery, $add_semantic)` writes. */
  function JsLines(toHeader: bool, addJquery: bool, addSemantic: bool, js: seq<JsFile>): seq<string> {
    FrameworkJsLines(toHeader, addJquery, addSemantic) + JsFileLines(toHeader, js)
  }

  /** The framework script tags `printJS` writes before the registered scripts. */
  function FrameworkJsLines(toHeader: bool, addJquery: bool, addSemantic: bool): seq<string> {
    (if toHeader && addJquery then [JQueryLine] else [])
    + (if toHeader && addSemantic then [SemanticJsLine] else [])
  }

  /** Everything `printHeader($add_semantic)` writes. */
  function HeaderLines(addSemantic: bool, css: seq<string>, js: seq<JsFile>): seq<string> {
    Preamble + CssLines(addSemantic, css) + JsLines(true, true, true, js) + [HeadClose]
  }

  /** Everything `printFooter()` writes. */
  function FooterLines(js: seq<JsFile>): seq<string> {
    JsLines(false, true, true, js) + [BodyClose]
  }

  /** The names of the scripts whose flag is `toBottom`, in registration order. */
  function Placed(js: seq<JsFile>, toBottom: bool): seq<string> {
    if js == [] then []
    else Placed(js[..|js| - 1], toBottom) + (if js[|js| - 1].toBottom == toBottom then [js[|js| - 1].name] else [])
  }

  /** The names of all registered scripts, in registration order. */
  function Names(js: seq<JsFile>): seq<string> {
    seq(|js|, k requires 0 <= k < |js| => js[k].name)
  }

  /** Head script tags for `names`, in order. */
  function HeadScriptLines(names: seq<string>): seq<string> {
    seq(|names|, k requires 0 <= k < |names| => HeadScriptLine(JsFileSrc(names[k])))
  }

  /** Body script tags for `names`, in order. */
  function BodyScriptLines(names: seq<string>): seq<string> {
    seq(|names|, k requires 0 <= k < |names| => BodyScriptLine(JsFileSrc(names[k])))
  }

  // ---------------------------------------------------------------------------
  // What the written text says
  // ---------------------------------------------------------------------------

  /** A registered stylesheet's link is never the framework's: their hrefs differ
      in the second character ("/css/..." against "/semantic/..."). */
  lemma {:induction false} CssFileLineIsNotSemantic(name: string)
    ensures CssFileLine(name) != SemanticCssLine
  {
    var n := |LinkOpen| + 1;
    assert CssFileLine(name)[n] == 'c';
    assert SemanticCssLine[n] == 's';
  }

  /** `printCSS` writes the framework stylesheet first exactly when `$add_semantic`
      is true, then one link per registered stylesheet in registration order. */
  lemma {:induction false} CssLinesLayout(addSemantic: bool, css: seq<string>)
    ensures (|CssLines(addSemantic, css)| > 0 && CssLines(addSemantic, css)[0] == SemanticCssLine) <==> addSemantic
    ensures var skip := if addSemantic then 1 else 0;
            |CssLines(addSemantic, css)| == skip + |css|
            && forall k :: 0 <= k < |css| ==> CssLines(addSemantic, css)[skip + k] == CssFileLine(css[k])
  {
    if !addSemantic && |css| > 0 {
      CssFileLineIsNotSemantic(css[0]);
    }
  }

  /** Appending one script adds its name at the end of the part its flag selects
      and leaves the other part as it was. */
  lemma {:induction false} PlacedAppend(js: seq<JsFile>, f: JsFile, toBottom: bool)
    ensures Placed(js + [f], toBottom) == Placed(js, toBottom) + (if f.toBottom == toBottom then [f.name] else [])
  {
    assert (js + [f])[..|js|] == js;
  }

  /** The head's loop writes exactly the scripts that are not flagged, in order. */
  lemma {:induction false} HeadScriptsAreUnflagged(js: seq<JsFile>)
    ensures JsFileLines(true, js) == HeadScriptLines(Placed(js, false))
  {
    if js != [] {
      HeadScriptsAreUnflagged(js[..|js| - 1]);
    }
  }

  /** The footer's loop writes exactly the flagged scripts, in order. */
  lemma {:induction false} FooterScriptsAreFlagged(js: seq<JsFile>)
    ensures JsFileLines(false, js) == BodyScriptLines(Placed(js, true))
  {
    if js != [] {
      FooterScriptsAreFlagged(js[..|js| - 1]);
    }
  }

  /** The names of a non-empty list are those of all but its last script, then the last one's. */
  lemma NamesSnoc(js: seq<JsFile>)
    requires js != []
    ensures Names(js) == Names(js[..|js| - 1]) + [js[|js| - 1].name]
  {
  }

  /** The two parts share out the registered scripts: every registered script is in
      exactly one of them, as often as it was registered. */
  lemma {:induction false} ScriptsSplitOnce(js: seq<JsFile>)
    ensures |Placed(js, false)| + |Placed(js, true)| == |js|
    ensures multiset(Placed(js, false)) + multiset(Placed(js, true)) == multiset(Names(js))
  {
    if js != [] {
      var init, last := js[..|js| - 1], js[|js| - 1];
      ScriptsSplitOnce(init);
      var head, foot := Placed(init, false), Placed(init, true);
      if last.toBottom {
        assert Placed(js, false) == head;
        assert Placed(js, true) == foot + [last.name];
      } else {
        assert Placed(js, false) == head + [last.name];
        assert Placed(js, true) == foot;
      }
      NamesSnoc(js);
    }
  }

  /** The head: preamble, stylesheets, then jQuery and the framework script whatever
      `$add_semantic` is, then the unflagged scripts in order, then the body opens. */
  lemma {:induction false} HeaderLayout(addSemantic: bool, css: seq<string>, js: seq<JsFile>)
    ensures HeaderLines(addSemantic, css, js)
            == Preamble + CssLines(addSemantic, css) + [JQueryLine, SemanticJsLine]
               + HeadScriptLines(Placed(js, false)) + [HeadClose]
  {
    HeadScriptsAreUnflagged(js);
  }

  /** The footer: the flagged scripts in order, then the body closes; no framework tag. */
  lemma {:induction false} FooterLayout(js: seq<JsFile>)
    ensures FooterLines(js) == BodyScriptLines(Placed(js, true)) + [BodyClose]
    ensures JQueryLine !in FooterLines(js) && SemanticJsLine !in FooterLines(js)
  {
    FooterScriptsAreFlagged(js);
    var lines := FooterLines(js);
    forall k | 0 <= k < |lines| ensures lines[k][1] != '\t' {
      if k < |lines| - 1 {
        assert lines[k] == BodyScriptLine(JsFileSrc(Placed(js, true)[k]));
      }
    }
    assert JQueryLine[1] == '\t' && SemanticJsLine[1] == '\t';
  }

  // ---------------------------------------------------------------------------
  // The page object
  // ---------------------------------------------------------------------------

  /** The page object. The directory contents the add methods check against are
      passed in as the set of file names present there. */
  class FliSys {
    /** Registered stylesheet names, trimmed, in registration order. */
    var cssFiles: seq<string>
    /** Registered scripts with their placement flag, in registration order. */
    var jsFiles: seq<JsFile>
    /** The page text written so far, one entry per `echo`. */
    var output: seq<string>

    /** Every registered name is a well-formed asset name: `[a-zA-Z0-9_.-]+` followed by
        ".css" for a stylesheet, by ".js" for a script. */
    ghost predicate Valid()
      reads this
    {
      (forall k :: 0 <= k < |cssFiles| ==> IsAssetName(cssFiles[k], CssExt))
      && (forall k :: 0 <= k < |jsFiles| ==> IsAssetName(jsFiles[k].name, JsExt))
    }

    /** A new page object: nothing registered, nothing written. The source's initialiser
        is misspelled and never runs, so no default stylesheet is registered. */
    constructor()
      ensures cssFiles == [] && jsFiles == [] && output == []
      ensures Valid()
    {
      cssFiles := [];
      jsFiles := [];
      output := [];
    }

    /** `addCSS($file_name)`: registers the trimmed name when it is valid and present
        in the stylesheet directory `cssDir`; otherwise changes nothing. */
    method AddCSS(cssDir: set<string>, fileName: Option<string> := None) returns (ok: bool)
      modifies this`cssFiles
      ensures ok <==> IsValidCssName(fileName) && Trim(fileName.value) in cssDir
      ensures cssFiles == if ok then old(cssFiles) + [Trim(fileName.value)] else old(cssFiles)
      ensures old(Valid()) ==> Valid()
    {
      if !HasContentString(fileName, 5) || !PregMatchAsset(Trim(fileName.value), CssExt) {
        return false;
      }
      if Trim(fileName.value) !in cssDir {
        return false;
      }
      ValidCssNameShape(fileName);
      PushCss(Trim(fileName.value));
      return true;
    }

    /** `addJS($file_name, $to_bottom)`: registers the trimmed name with its flag when it
        is valid and present in the script directory `jsDir`; otherwise changes nothing. */
    method AddJS(jsDir: set<string>, fileName: Option<string> := None, toBottom: bool := true) returns (ok: bool)
      modifies this`jsFiles
      ensures ok <==> IsValidJsName(fileName) && Trim(fileName.value) in jsDir
      ensures jsFiles == if ok then old(jsFiles) + [JsFile(Trim(fileName.value), toBottom)] else old(jsFiles)
      ensures ok ==> Placed(jsFiles, toBottom) == Placed(old(jsFiles), toBottom) + [Trim(fileName.value)]
                     && Placed(jsFiles, !toBottom) == Placed(old(jsFiles), !toBottom)
      ensures old(Valid()) ==> Valid()
    {
      if !HasContentString(fileName, 4) || !PregMatchAsset(Trim(fileName.value), JsExt) {
        return false;
      }
      if Trim(fileName.value) !in jsDir {
        return false;
      }
      ValidJsNameShape(fileName);
      PushJs(JsFile(Trim(fileName.value), toBottom));
      return true;
    }

    /** The append at the end of `addCSS`: one more stylesheet name at the end of the
        list. An asset name keeps the object invariant. */
    method PushCss(name: string)
      modifies this`cssFiles
      ensures cssFiles == old(cssFiles) + [name]
      ensures old(Valid()) && IsAssetName(name, CssExt) ==> Valid()
    {
      cssFiles := cssFiles + [name];
    }

    /** The append at the end of `addJS`: one more script at the end of the list. Its
        name joins the end of the part its flag selects and the other part is unchanged;
        an asset name keeps the object invariant. */
    method PushJs(f: JsFile)
      modifies this`jsFiles
      ensures jsFiles == old(jsFiles) + [f]
      ensures Placed(jsFiles, f.toBottom) == Placed(old(jsFiles), f.toBottom) + [f.name]
      ensures Placed(jsFiles, !f.toBottom) == Placed(old(jsFiles), !f.toBottom)
      ensures old(Valid()) && IsAssetName(f.name, JsExt) ==> Valid()
    {
      PlacedAppend(jsFiles, f, f.toBottom);
      PlacedAppend(jsFiles, f, !f.toBottom);
      jsFiles := jsFiles + [f];
    }

    /** `printCSS($add_semantic)`: writes the framework stylesheet if asked, then one link
        per registered stylesheet. */
    method PrintCSS(addSemantic: bool := true)
      modifies this`output
      ensures output == old(output) + CssLines(addSemantic, cssFiles)
    {
      if addSemantic {
        output := output + [SemanticCssLine];
      }
      if |cssFiles| < 1 {
        return;
      }
      var i := 0;
      while i < |cssFiles|
        invariant 0 <= i <= |cssFiles|
        invariant output == old(output) + (if addSemantic then [SemanticCssLine] else [])
                            + CssFileLines(cssFiles[..i])
      {
        assert CssFileLines(cssFiles[..i + 1]) == CssFileLines(cssFiles[..i]) + [CssFileLine(cssFiles[i])];
        output := output + [CssFileLine(cssFiles[i])];
        i := i + 1;
      }
      assert cssFiles[..i] == cssFiles;
    }

    /** `printJS($to_header, $add_jquery, $add_semantic)`: in the head, the framework scripts
        if asked, then the unflagged scripts; at the end of the body, the flagged scripts. */
    method PrintJS(toHeader: bool := false, addJquery: bool := true, addSemantic: bool := true)
      modifies this`output
      ensures output == old(output) + JsLines(toHeader, addJquery, addSemantic, jsFiles)
    {
      ghost var start, framework, files := output, FrameworkJsLines(toHeader, addJquery, addSemantic), JsFileLines(toHeader, jsFiles);
      if toHeader && addJquery {
        output := output + [JQueryLine];
      }
      if toHeader && addSemantic {
        output := output + [SemanticJsLine];
      }
      assert output == start + framework;
      if |jsFiles| < 1 {
        assert files == [];
        return;
      }
      PrintJSFiles(toHeader);
      assert output == (start + framework) + files;
      assert (start + framework) + files == start + (framework + files);
    }

    /** The `foreach` of `printJS`: each registered script, in order, is written to the
        head when it is unflagged and `toHeader` holds, to the body end when it is flagged
        and `toHeader` does not; otherwise it is skipped. */
    method PrintJSFiles(toHeader: bool)
      modifies this`output
      ensures output == old(output) + JsFileLines(toHeader, jsFiles)
    {
      var i := 0;
      while i < |jsFiles|
        invariant 0 <= i <= |jsFiles|
        invariant output == old(output) + JsFileLines(toHeader, jsFiles[..i])
      {
        var f := jsFiles[i];
        JsFileLinesStep(toHeader, jsFiles, i);
        if toHeader && !f.toBottom {
          output := output + [HeadScriptLine(JsFileSrc(f.name))];
        } else if !toHeader && f.toBottom {
          output := output + [BodyScriptLine(JsFileSrc(f.name))];
        }
        i := i + 1;
      }
      assert jsFiles[..i] == jsFiles;
    }

    /** `printHeader($add_semantic)`: the preamble, the stylesheets, the head scripts
        (always with the framework scripts) and the opening of the body. */
    method PrintHeader(addSemantic: bool := true)
      modifies this`output
      ensures output == old(output) + HeaderLines(addSemantic, cssFiles, jsFiles)
    {
      output := output + Preamble;
      PrintCSS(addSemantic);
      PrintJS(true);
      output := output + [HeadClose];
    }

    /** `printFooter()`: the flagged scripts and the closing of the body. */
    method PrintFooter()
      modifies this`output
      ensures output == old(output) + FooterLines(jsFiles)
    {
      PrintJS();
      output := output + [BodyClose];
    }
  }
}
