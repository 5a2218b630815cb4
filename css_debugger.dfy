/**
 * scripts/css-debugger.js: the `CSSDebugger` diagnostics. The browser probes
 * (stylesheets, computed styles of the certification section, support for
 * custom properties and grid) become input values; the model covers how the
 * results are recorded, which issues they produce, when the fallback styles
 * are applied and which issues count as critical.
 */
module CssDebugger {
  import opened Js

  // ---------------------------------------------------------------------------
  // checkCSSFiles

  /** A `<link rel="stylesheet">`: its `href` and, when it has a sheet, how many rules the sheet holds. */
  datatype StyleLink = StyleLink(href: string, sheetRules: Option<nat>)

  /** One record of `checkCSSFiles()`. */
  datatype CssFile = CssFile(file: string, url: string, loaded: bool, rules: nat)

  /**
   * The record of one link: the file is the last `/`-segment of the href, and
   * a link counts as loaded when it has no sheet or its sheet has rules.
   */
  function FileEntry(link: StyleLink): (f: CssFile)
    ensures f.url == link.href
    ensures f.loaded <==> link.sheetRules.None? || link.sheetRules.value > 0
    ensures f.rules == if link.sheetRules.Some? then link.sheetRules.value else 0
    ensures '/' !in f.file && |f.file| <= |link.href| && link.href[|link.href| - |f.file|..] == f.file
    ensures |f.file| < |link.href| ==> link.href[|link.href| - |f.file| - 1] == '/'
  {
    var rules := if link.sheetRules.Some? then link.sheetRules.value else 0;
    CssFile(LastPiece(link.href, '/'), link.href, link.sheetRules.None? || rules > 0, rules)
  }

  /** `checkCSSFiles()`: one record per stylesheet link, in document order. */
  method CheckCSSFiles(links: seq<StyleLink>) returns (results: seq<CssFile>)
    ensures |results| == |links|
    ensures forall i :: 0 <= i < |links| ==> results[i] == FileEntry(links[i])
  {
    results := [];
    for i := 0 to |links|
      invariant |results| == i
      invariant forall j :: 0 <= j < i ==> results[j] == FileEntry(links[j])
    {
      results := results + [FileEntry(links[i])];
    }
  }

  // ---------------------------------------------------------------------------
  // checkCertificationStyles

  datatype SectionStyle = SectionStyle(background: string, padding: string, display: string)
  datatype GridStyle = GridStyle(display: string, gridTemplateColumns: string, gap: string)

  /**
   * What `checkCertificationStyles()` reports: the `error` record when there is
   * no `.certifications` section, otherwise its computed styles, the grid's
   * styles when there is a `.certifications-grid`, and the card count.
   */
  datatype CertStyles =
    | CertMissing
    | CertFound(section: SectionStyle, grid: Option<GridStyle>, cardsCount: nat)

  /** The diagnostics gathered by `runDiagnostics()`. */
  datatype Results = Results(
    cssFiles: seq<CssFile>,
    certificationStyles: CertStyles,
    customPropertiesSupported: bool,
    gridSupported: bool)

  // ---------------------------------------------------------------------------
  // identifyIssues

  // The issue texts. The longer ones are written in pieces of a few words: the
  // verifier reads characters out of short literals but not out of long ones,
  // and the lemmas below read letters and prefixes to decide which issues are
  // critical.
  const UnloadedPrefix := "CSS no cargado: "
  const SectionMissingIssue := "Secci\U{00F3}n de " + "certificaciones " + "no encontrada"
  const BackgroundIssue := "Background" + " de certificaciones no aplicado"
  const GridIssue := "CSS " + "Grid" + " no aplicado a certificaciones"
  const CardsIssue := "No se " + "encontraron " + "tarjetas de " + "certificaci\U{00F3}n"
  const VariablesIssue := "Variables " + "CSS no " + "soportadas " + "- usando " + "fallbacks"
  const GridSupportIssue := "CSS " + "Grid" + " no soportado - usando fallback"

  /** A background that shows nothing. */
  predicate Transparent(background: string) {
    background == "rgba(0, 0, 0, 0)" || background == "transparent"
  }

  /** No grid element, or one not laid out as a grid. */
  predicate GridNotApplied(grid: Option<GridStyle>) {
    grid.None? || grid.value.display != "grid"
  }

  /** One issue per file that is not loaded, in file order. */
  function UnloadedIssues(files: seq<CssFile>): seq<string>
    decreases |files|
  {
    if files == [] then []
    else
      var f := files[|files| - 1];
      UnloadedIssues(files[..|files| - 1]) + (if f.loaded then [] else [UnloadedPrefix + f.file])
  }

  /** The certification issues: the error alone, or the background, grid and card checks in that order. */
  function CertIssues(c: CertStyles): seq<string> {
    match c
    case CertMissing => [SectionMissingIssue]
    case CertFound(section, grid, cardsCount) =>
      (if Transparent(section.background) then [BackgroundIssue] else [])
      + (if GridNotApplied(grid) then [GridIssue] else [])
      + (if cardsCount == 0 then [CardsIssue] else [])
  }

  /** The support issues, custom properties before grid. */
  function SupportIssues(customPropertiesSupported: bool, gridSupported: bool): seq<string> {
    (if customPropertiesSupported then [] else [VariablesIssue])
    + (if gridSupported then [] else [GridSupportIssue])
  }

  /** The list `identifyIssues(results)` returns. */
  function Issues(r: Results): seq<string> {
    UnloadedIssues(r.cssFiles) + CertIssues(r.certificationStyles)
    + SupportIssues(r.customPropertiesSupported, r.gridSupported)
  }

  /** `identifyIssues(results)`. */
  method IdentifyIssues(results: Results) returns (issues: seq<string>)
    ensures issues == Issues(results)
  {
    issues := [];
    var files := results.cssFiles;
    for i := 0 to |files|
      invariant issues == UnloadedIssues(files[..i])
    {
      assert files[..i + 1][..i] == files[..i];
      if !files[i].loaded {
        issues := issues + [UnloadedPrefix + files[i].file];
      }
    }
    assert files[..|files|] == files;
    match results.certificationStyles {
      case CertMissing =>
        issues := issues + [SectionMissingIssue];
      case CertFound(section, grid, cardsCount) =>
        var cert: seq<string> := [];
        if Transparent(section.background) {
          cert := cert + [BackgroundIssue];
        }
        if grid.None? || grid.value.display != "grid" {
          cert := cert + [GridIssue];
        }
        if cardsCount == 0 {
          cert := cert + [CardsIssue];
        }
        assert cert == CertIssues(results.certificationStyles);
        issues := issues + cert;
    }
    ghost var before := issues;
    if !results.customPropertiesSupported {
      issues := issues + [VariablesIssue];
    }
    if !results.gridSupported {
      issues := issues + [GridSupportIssue];
    }
    assert issues == before + SupportIssues(results.customPropertiesSupported, results.gridSupported);
  }

  /** The file issues of two runs of files are the issues of each, in order. */
  lemma {:induction false} UnloadedIssuesAppend(a: seq<CssFile>, b: seq<CssFile>)
    ensures UnloadedIssues(a + b) == UnloadedIssues(a) + UnloadedIssues(b)
    decreases |b|
  {
    if b == [] {
      assert a + b == a;
    } else {
      var b' := b[..|b| - 1];
      assert (a + b)[..|a + b| - 1] == a + b';
      UnloadedIssuesAppend(a, b');
    }
  }

  /** There is no file issue exactly when every file is loaded. */
  lemma {:induction false} UnloadedIssuesEmpty(files: seq<CssFile>)
    ensures UnloadedIssues(files) == [] <==> forall i :: 0 <= i < |files| ==> files[i].loaded
    decreases |files|
  {
    if files != [] {
      var init := files[..|files| - 1];
      UnloadedIssuesEmpty(init);
      if UnloadedIssues(files) == [] {
        forall i | 0 <= i < |files|
          ensures files[i].loaded
        {
          if i < |files| - 1 {
            assert init[i] == files[i];
          }
        }
      }
    }
  }

  /** Every file issue names a file that is not loaded, and every such file has its issue. */
  lemma {:induction false} UnloadedIssuesNameFiles(files: seq<CssFile>)
    ensures forall x :: x in UnloadedIssues(files) ==>
      exists i :: 0 <= i < |files| && !files[i].loaded && x == UnloadedPrefix + files[i].file
    ensures forall i :: 0 <= i < |files| && !files[i].loaded ==> UnloadedPrefix + files[i].file in UnloadedIssues(files)
    decreases |files|
  {
    if files != [] {
      var init := files[..|files| - 1];
      UnloadedIssuesNameFiles(init);
      forall x | x in UnloadedIssues(files)
        ensures exists i :: 0 <= i < |files| && !files[i].loaded && x == UnloadedPrefix + files[i].file
      {
        if x in UnloadedIssues(init) {
          var i :| 0 <= i < |init| && !init[i].loaded && x == UnloadedPrefix + init[i].file;
          assert files[i] == init[i];
        } else {
          assert !files[|files| - 1].loaded && x == UnloadedPrefix + files[|files| - 1].file;
        }
      }
      forall i | 0 <= i < |files| && !files[i].loaded
        ensures UnloadedPrefix + files[i].file in UnloadedIssues(files)
      {
        if i < |files| - 1 {
          assert init[i] == files[i];
        }
      }
    }
  }

  /**
   * With a certification section present, each of its three issues is
   * reported exactly when its check fails; without one, the error is the only
   * certification issue.
   */
  lemma CertIssuesIff(c: CertStyles)
    ensures c.CertMissing? ==> CertIssues(c) == [SectionMissingIssue]
    ensures c.CertFound? ==>
      (BackgroundIssue in CertIssues(c) <==> Transparent(c.section.background))
      && (GridIssue in CertIssues(c) <==> GridNotApplied(c.grid))
      && (CardsIssue in CertIssues(c) <==> c.cardsCount == 0)
  {
    assert BackgroundIssue[0] == 'B' && GridIssue[0] == 'C' && CardsIssue[0] == 'N';
  }

  /** `identifyIssues` finds nothing exactly when every check passes. */
  lemma IssuesEmptyIff(r: Results)
    ensures Issues(r) == [] <==>
      (forall i :: 0 <= i < |r.cssFiles| ==> r.cssFiles[i].loaded)
      && r.certificationStyles.CertFound?
      && !Transparent(r.certificationStyles.section.background)
      && !GridNotApplied(r.certificationStyles.grid)
      && r.certificationStyles.cardsCount > 0
      && r.customPropertiesSupported && r.gridSupported
  {
    UnloadedIssuesEmpty(r.cssFiles);
  }

  // ---------------------------------------------------------------------------
  // fixIssues

  /** `fixIssues(results)`: whether the fallback styles are applied. */
  method FixIssues(results: Results) returns (applied: bool)
    ensures applied <==> Issues(results) != []
    ensures !applied <==>
      (forall i :: 0 <= i < |results.cssFiles| ==> results.cssFiles[i].loaded)
      && results.certificationStyles.CertFound?
      && !Transparent(results.certificationStyles.section.background)
      && !GridNotApplied(results.certificationStyles.grid)
      && results.certificationStyles.cardsCount > 0
      && results.customPropertiesSupported && results.gridSupported
  {
    var issues := IdentifyIssues(results);
    IssuesEmptyIff(results);
    applied := |issues| > 0;
  }

  // ---------------------------------------------------------------------------
  // showUserNotification

  /** An issue that affects what the visitor sees. */
  predicate Critical(issue: string) {
    Contains(issue, "Background") || Contains(issue, "Grid") || Contains(issue, "CSS no cargado")
  }

  /** `issues.filter(...)`: the critical issues in their original order. */
  function CriticalIssues(issues: seq<string>): (r: seq<string>)
    ensures |r| <= |issues|
    decreases |issues|
  {
    if issues == [] then []
    else if Critical(issues[0]) then [issues[0]] + CriticalIssues(issues[1..])
    else CriticalIssues(issues[1..])
  }

  /** The filter keeps exactly the critical issues. */
  lemma {:induction false} CriticalIssuesMembers(issues: seq<string>)
    ensures forall x :: x in CriticalIssues(issues) <==> x in issues && Critical(x)
    decreases |issues|
  {
    if issues != [] {
      CriticalIssuesMembers(issues[1..]);
      assert issues == [issues[0]] + issues[1..];
    }
  }

  /** Filtering commutes with concatenation, so the order of issues is kept. */
  lemma {:induction false} CriticalIssuesAppend(a: seq<string>, b: seq<string>)
    ensures CriticalIssues(a + b) == CriticalIssues(a) + CriticalIssues(b)
    decreases |a|
  {
    if a == [] {
      assert a + b == b;
    } else {
      assert (a + b)[1..] == a[1..] + b;
      CriticalIssuesAppend(a[1..], b);
    }
  }

  /** `showUserNotification(issues)`: whether the critical-problem warning is raised. */
  function ShowUserNotification(issues: seq<string>): (warned: bool)
    ensures warned <==> exists i :: 0 <= i < |issues| && Critical(issues[i])
  {
    var critical := CriticalIssues(issues);
    CriticalIssuesMembers(issues);
    assert critical != [] ==> critical[0] in critical;
    |critical| > 0
  }

  /** The letters every critical word needs: `B` of Background, `G` of Grid, `g` of cargado. */
  predicate LacksCriticalLetters(issue: string) {
    'B' !in issue && 'G' !in issue && 'g' !in issue
  }

  /** An issue without those letters cannot contain any of the three critical words. */
  lemma NotCritical(issue: string)
    requires LacksCriticalLetters(issue)
    ensures !Critical(issue)
  {
    NotContainsMissingChar(issue, "Background", 0);
    NotContainsMissingChar(issue, "Grid", 0);
    NotContainsMissingChar(issue, "CSS no cargado", 10);
  }

  /** The background issue and both grid issues are critical. */
  lemma BackgroundIssueCritical()
    ensures Critical(BackgroundIssue)
  {
    assert BackgroundIssue[..|"Background"|] == "Background";
  }

  lemma GridIssueCritical()
    ensures Critical(GridIssue)
  {
    ContainsPrefix("Grid", "CSS ", " no aplicado a certificaciones");
  }

  lemma GridSupportIssueCritical()
    ensures Critical(GridSupportIssue)
  {
    ContainsPrefix("Grid", "CSS ", " no soportado - usando fallback");
  }

  /** The missing-section, no-cards and custom-property issues are not critical. */
  lemma SectionMissingLacksCriticalLetters()
    ensures LacksCriticalLetters(SectionMissingIssue)
  {
  }

  lemma CardsLacksCriticalLetters()
    ensures LacksCriticalLetters(CardsIssue)
  {
  }

  lemma VariablesLacksCriticalLetters()
    ensures LacksCriticalLetters(VariablesIssue)
  {
  }

  /** Every file issue is critical. */
  lemma UnloadedIssueCritical(file: string)
    ensures Critical(UnloadedPrefix + file)
  {
    var s := UnloadedPrefix + file;
    assert s[..|"CSS no cargado"|] == "CSS no cargado";
    assert StartsWith(s, "CSS no cargado");
  }

  lemma {:induction false} UnloadedIssuesCritical(files: seq<CssFile>)
    ensures CriticalIssues(UnloadedIssues(files)) == UnloadedIssues(files)
    decreases |files|
  {
    if files != [] {
      var init := files[..|files| - 1];
      var f := files[|files| - 1];
      UnloadedIssuesCritical(init);
      var tail := if f.loaded then [] else [UnloadedPrefix + f.file];
      CriticalIssuesAppend(UnloadedIssues(init), tail);
      UnloadedIssueCritical(f.file);
    }
  }

  /** Filtering one optional issue of each of three kinds keeps exactly the critical kinds. */
  lemma FilterThree(a: string, b: string, c: string, hasA: bool, hasB: bool, hasC: bool)
    ensures CriticalIssues((if hasA then [a] else []) + (if hasB then [b] else []) + (if hasC then [c] else []))
      == (if hasA && Critical(a) then [a] else [])
         + (if hasB && Critical(b) then [b] else [])
         + (if hasC && Critical(c) then [c] else [])
  {
    var sa: seq<string> := if hasA then [a] else [];
    var sb: seq<string> := if hasB then [b] else [];
    var sc: seq<string> := if hasC then [c] else [];
    CriticalIssuesAppend(sa + sb, sc);
    CriticalIssuesAppend(sa, sb);
  }

  /** Filtering three runs of issues filters each run. */
  lemma FilterConcat3(u: seq<string>, c: seq<string>, s: seq<string>)
    ensures CriticalIssues(u + c + s) == CriticalIssues(u) + CriticalIssues(c) + CriticalIssues(s)
  {
    CriticalIssuesAppend(u + c, s);
    CriticalIssuesAppend(u, c);
  }

  /**
   * The critical issues of a diagnostic run: every file issue, the background
   * and grid issues of a present section, and missing grid support. A missing
   * section, a page without cards and missing custom-property support never
   * raise the warning on their own.
   */
  lemma CriticalIssuesOfResults(r: Results)
    ensures CriticalIssues(Issues(r)) ==
      UnloadedIssues(r.cssFiles)
      + ((if r.certificationStyles.CertFound? && Transparent(r.certificationStyles.section.background)
          then [BackgroundIssue] else [])
         + (if r.certificationStyles.CertFound? && GridNotApplied(r.certificationStyles.grid)
            then [GridIssue] else []))
      + (if r.gridSupported then [] else [GridSupportIssue])
  {
    FilterConcat3(UnloadedIssues(r.cssFiles), CertIssues(r.certificationStyles),
                  SupportIssues(r.customPropertiesSupported, r.gridSupported));
    UnloadedIssuesCritical(r.cssFiles);
    CertCritical(r.certificationStyles);
    SupportCritical(r.customPropertiesSupported, r.gridSupported);
  }

  lemma CertCritical(c: CertStyles)
    ensures CriticalIssues(CertIssues(c)) ==
      (if c.CertFound? && Transparent(c.section.background) then [BackgroundIssue] else [])
      + (if c.CertFound? && GridNotApplied(c.grid) then [GridIssue] else [])
  {
    match c {
      case CertMissing =>
        SectionMissingLacksCriticalLetters();
        NotCritical(SectionMissingIssue);
        FilterThree(SectionMissingIssue, "", "", true, false, false);
        assert CertIssues(c) == [SectionMissingIssue] + [] + [];
      case CertFound(section, grid, cardsCount) =>
        BackgroundIssueCritical();
        GridIssueCritical();
        CardsLacksCriticalLetters();
        NotCritical(CardsIssue);
        FilterThree(BackgroundIssue, GridIssue, CardsIssue,
                    Transparent(section.background), GridNotApplied(grid), cardsCount == 0);
    }
  }

  lemma SupportCritical(custom: bool, grid: bool)
    ensures CriticalIssues(SupportIssues(custom, grid)) == if grid then [] else [GridSupportIssue]
  {
    VariablesLacksCriticalLetters();
    NotCritical(VariablesIssue);
    GridSupportIssueCritical();
    FilterThree(VariablesIssue, GridSupportIssue, "", !custom, !grid, false);
    assert SupportIssues(custom, grid) == SupportIssues(custom, grid) + [];
  }
}
