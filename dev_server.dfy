/**
 * server.py: the development server's `Content-Type` header. The four web
 * extensions get fixed types with `charset=utf-8`; any other file takes the type
 * guessed from its name, with the charset added to `text/` types. The filesystem
 * path (`translate_path`) and the guess (`guess_type`) are inputs; the extension
 * is cut off the way Python's `os.path.splitext` does on POSIX paths.
 */
module DevServer {
  import opened Js

  /** The index of the last `c` in `s`, or -1 (`str.rfind`). */
  function LastIndex(s: string, c: char): (r: int)
    ensures -1 <= r < |s|
    ensures r >= 0 ==> s[r] == c
    ensures forall k :: r < k < |s| ==> s[k] != c
  {
    if s == [] then -1
    else if s[|s| - 1] == c then |s| - 1
    else LastIndex(s[..|s| - 1], c)
  }

  /** `LastIndex` is determined by its contract: a `c` with none after it is the last one. */
  lemma LastIndexAt(s: string, c: char, i: int)
    requires 0 <= i < |s| && s[i] == c
    requires forall k :: i < k < |s| ==> s[k] != c
    ensures LastIndex(s, c) == i
  {
  }

  /**
   * Whether the last path component has a character other than `.` before the
   * dot at `dot`: leading dots of a name do not start an extension.
   */
  predicate NamedBeforeDot(p: string, sep: int, dot: int)
    requires -1 <= sep < dot < |p|
  {
    exists k :: sep < k < dot && p[k] != '.'
  }

  /** `os.path.splitext(p)`: `(root, ext)`. */
  function SplitExt(p: string): (parts: (string, string))
    ensures parts.0 + parts.1 == p
    ensures parts.1 == [] || (parts.1[0] == '.' && forall k :: 1 <= k < |parts.1| ==> parts.1[k] != '.' && parts.1[k] != '/')
  {
    var sep := LastIndex(p, '/');
    var dot := LastIndex(p, '.');
    if dot > sep && NamedBeforeDot(p, sep, dot) then
      assert p[..dot] + p[dot..] == p;
      (p[..dot], p[dot..])
    else (p, "")
  }

  function Extension(p: string): string {
    SplitExt(p).1
  }

  /**
   * The usual case: a path `dir/stem.ext` whose stem does not start with a dot
   * has extension `.ext`, for an `ext` with neither dot nor slash.
   */
  lemma {:induction false} ExtensionOfFile(dir: string, stem: string, ext: string)
    requires stem != [] && stem[0] != '.' && '/' !in stem
    requires '.' !in ext && '/' !in ext
    ensures Extension(dir + "/" + stem + "." + ext) == "." + ext
  {
    var p := dir + "/" + stem + "." + ext;
    var sep, dot := |dir|, |dir| + 1 + |stem|;
    assert p[sep] == '/' && p[dot] == '.';
    assert forall k :: sep < k < |p| ==> p[k] != '/' by {
      forall k | sep < k < |p| ensures p[k] != '/' {
        if k < dot { assert p[k] == stem[k - sep - 1]; }
        else if k > dot { assert p[k] == ext[k - dot - 1]; }
      }
    }
    assert forall k :: dot < k < |p| ==> p[k] != '.' by {
      forall k | dot < k < |p| ensures p[k] != '.' {
        assert p[k] == ext[k - dot - 1];
      }
    }
    LastIndexAt(p, '/', sep);
    LastIndexAt(p, '.', dot);
    assert p[sep + 1] == stem[0];
    assert NamedBeforeDot(p, sep, dot);
    assert p[dot..] == "." + ext;
  }

  /** A file whose name is only a dot and letters, such as `.html`, has no extension. */
  lemma {:induction false} DotFileHasNoExtension(dir: string, ext: string)
    requires '.' !in ext && '/' !in ext
    ensures Extension(dir + "/." + ext) == ""
  {
    var p := dir + "/." + ext;
    var sep, dot := |dir|, |dir| + 1;
    assert p[sep] == '/' && p[dot] == '.';
    assert forall k :: dot < k < |p| ==> p[k] != '.' && p[k] != '/' by {
      forall k | dot < k < |p| ensures p[k] != '.' && p[k] != '/' {
        assert p[k] == ext[k - dot - 1];
      }
    }
    LastIndexAt(p, '/', sep);
    LastIndexAt(p, '.', dot);
  }

  const Utf8Suffix := "; charset=utf-8"
  const HtmlType := "text/html; charset=utf-8"
  const CssType := "text/css; charset=utf-8"
  const JsType := "application/javascript; charset=utf-8"
  const JsonType := "application/json; charset=utf-8"
  const DefaultType := "application/octet-stream"

  /** The extensions with a fixed type. */
  predicate WebExtension(ext: string) {
    ext == ".html" || ext == ".htm" || ext == ".css" || ext == ".js" || ext == ".json"
  }

  /**
   * The `else` branch: a `text/` guess gains the charset, another guess is kept,
   * and no guess (`None` or the empty string, both false in Python) gives the
   * binary default.
   */
  function GuessedType(guessed: Option<string>): (t: string)
    ensures guessed.Some? && StartsWith(guessed.value, "text/") ==> t == guessed.value + Utf8Suffix
    ensures guessed.Some? && guessed.value != "" && !StartsWith(guessed.value, "text/") ==> t == guessed.value
    ensures guessed.None? || guessed == Some("") ==> t == DefaultType
  {
    if guessed.Some? && guessed.value != "" && StartsWith(guessed.value, "text/") then guessed.value + Utf8Suffix
    else if guessed.Some? && guessed.value != "" then guessed.value
    else DefaultType
  }

  /** `guess_type_with_utf8` for the translated path `path`. */
  function ContentType(path: string, guessed: Option<string>): (t: string)
    ensures Extension(path) in {".html", ".htm"} ==> t == HtmlType
    ensures Extension(path) == ".css" ==> t == CssType
    ensures Extension(path) == ".js" ==> t == JsType
    ensures Extension(path) == ".json" ==> t == JsonType
    ensures !WebExtension(Extension(path)) ==> t == GuessedType(guessed)
  {
    var ext := Extension(path);
    if ext == ".html" || ext == ".htm" then HtmlType
    else if ext == ".css" then CssType
    else if ext == ".js" then JsType
    else if ext == ".json" then JsonType
    else GuessedType(guessed)
  }

  /** A header is always sent: the content type is never empty. */
  lemma ContentTypeNonEmpty(path: string, guessed: Option<string>)
    ensures ContentType(path, guessed) != ""
  {
  }

  predicate EndsWith(s: string, suffix: string) {
    |suffix| <= |s| && s[|s| - |suffix|..] == suffix
  }

  lemma SuffixOfAppend(a: string, suffix: string)
    ensures EndsWith(a + suffix, suffix)
  {
    assert (a + suffix)[|a|..] == suffix;
  }

  /** A type that starts with `a` is not a `text/` type. */
  lemma NotText(t: string)
    requires t != [] && t[0] == 'a'
    ensures !StartsWith(t, "text/")
  {
    assert "text/"[0] == 't';
  }

  /** The fixed types: the two `text/` ones carry the charset, the others are not `text/`. */
  lemma FixedTypes()
    ensures EndsWith(HtmlType, Utf8Suffix) && EndsWith(CssType, Utf8Suffix)
    ensures !StartsWith(JsType, "text/") && !StartsWith(JsonType, "text/") && !StartsWith(DefaultType, "text/")
  {
    SuffixOfAppend("text/html", Utf8Suffix);
    SuffixOfAppend("text/css", Utf8Suffix);
    NotText(JsType);
    NotText(JsonType);
    NotText(DefaultType);
  }

  /** Every `text/` type the server sends declares UTF-8. */
  lemma TextTypesDeclareUtf8(path: string, guessed: Option<string>)
    ensures StartsWith(ContentType(path, guessed), "text/") ==> EndsWith(ContentType(path, guessed), Utf8Suffix)
  {
    FixedTypes();
    if !WebExtension(Extension(path)) && guessed.Some? && guessed.value != "" && StartsWith(guessed.value, "text/") {
      SuffixOfAppend(guessed.value, Utf8Suffix);
    }
  }

  /** Matching is case-sensitive: `INDEX.HTML` is typed by the guess, not as HTML. */
  lemma UpperCaseExtensionIsGuessed(dir: string, guessed: Option<string>)
    ensures ContentType(dir + "/INDEX.HTML", guessed) == GuessedType(guessed)
  {
    assert dir + "/INDEX.HTML" == dir + "/" + "INDEX" + "." + "HTML";
    ExtensionOfFile(dir, "INDEX", "HTML");
  }

  /** The CV page itself (`cv.html`) is always served as UTF-8 HTML, whatever the guess. */
  lemma CvPageIsHtml(dir: string, guessed: Option<string>)
    ensures ContentType(dir + "/cv.html", guessed) == HtmlType
  {
    assert dir + "/cv.html" == dir + "/" + "cv" + "." + "html";
    ExtensionOfFile(dir, "cv", "html");
  }
}
