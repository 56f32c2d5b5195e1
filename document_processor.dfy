/**
 * `DocumentProcessor.load_document`: the loader is chosen from the
 * lowercased extension of the path, as `os.path.splitext` computes it on a
 * POSIX system; an extension other than `.txt`, `.pdf` and `.docx`, or none
 * at all, raises `ValueError`.
 */
module DocumentProcessor {
  import opened Text

  /** The three LangChain loaders `load_document` can pick. */
  datatype Loader = TextLoader | PyPdfLoader | Docx2txtLoader

  /** The chosen loader, or the `ValueError` raised for any other extension. */
  datatype LoadResult = Loaded(loader: Loader) | UnsupportedFileType(message: string)

  /** Every character of `s` is a dot. */
  predicate AllDots(s: string)
  {
    forall i :: 0 <= i < |s| ==> s[i] == '.'
  }

  /** `os.path.splitext(path)[1]` with `/` as the separator: the text from
      the last dot of the last path component, provided that dot is not
      preceded in the component by dots only (so `.bashrc` and `..` have no
      extension); otherwise the empty string. */
  function Extension(path: string): (ext: string)
    ensures ext == "" || (ext[0] == '.' && '.' !in ext[1..] && '/' !in ext)
    ensures |ext| <= |path| && ext == path[|path| - |ext|..]
  {
    var sepIndex := RFind(path, '/');
    var dotIndex := RFind(path, '.');
    if dotIndex > sepIndex && !AllDots(path[sepIndex + 1..dotIndex]) then
      var ext := path[dotIndex..];
      assert ext[1..] == path[dotIndex + 1..];
      assert '/' !in ext by {
        if sepIndex >= 0 {
          assert ext == path[sepIndex + 1..][dotIndex - sepIndex - 1..];
        } else {
          assert '/' !in path;
        }
      }
      ext
    else
      ""
  }

  const UnsupportedPrefix: string := "Unsupported file type: "

  /** The dispatch of `load_document` on the lowercased extension. */
  function LoadDocument(path: string): (r: LoadResult)
    ensures r == Loaded(TextLoader) <==> ToLower(Extension(path)) == ".txt"
    ensures r == Loaded(PyPdfLoader) <==> ToLower(Extension(path)) == ".pdf"
    ensures r == Loaded(Docx2txtLoader) <==> ToLower(Extension(path)) == ".docx"
    ensures r.UnsupportedFileType? ==> r.message == UnsupportedPrefix + ToLower(Extension(path))
  {
    var fileExtension := ToLower(Extension(path));
    if fileExtension == ".txt" then Loaded(TextLoader)
    else if fileExtension == ".pdf" then Loaded(PyPdfLoader)
    else if fileExtension == ".docx" then Loaded(Docx2txtLoader)
    else UnsupportedFileType(UnsupportedPrefix + fileExtension)
  }

  // ---------------------------------------------------------------------------
  // Lowercasing the path does not change the dispatch
  // ---------------------------------------------------------------------------

  lemma ToLowerSlice(s: string, a: nat, b: nat)
    requires a <= b <= |s|
    ensures ToLower(s)[a..b] == ToLower(s[a..b])
  {
  }

  lemma ToLowerIdempotent(s: string)
    ensures ToLower(ToLower(s)) == ToLower(s)
  {
  }

  /** Lowercasing moves no slash and no dot. */
  lemma {:induction false} RFindToLower(s: string, c: char)
    requires c == '/' || c == '.'
    ensures RFind(ToLower(s), c) == RFind(s, c)
    decreases |s|
  {
    if s != [] {
      var front := s[..|s| - 1];
      assert ToLower(s)[..|s| - 1] == ToLower(front);
      assert ToLower(s)[|s| - 1] == c <==> s[|s| - 1] == c;
      RFindToLower(front, c);
    }
  }

  lemma AllDotsToLower(s: string)
    ensures AllDots(ToLower(s)) <==> AllDots(s)
  {
    if AllDots(ToLower(s)) {
      forall i | 0 <= i < |s| ensures s[i] == '.' {
        assert ToLowerChar(s[i]) == '.';
      }
    }
  }

  /** `Extension` in terms of the last slash and the last dot. */
  lemma ExtensionAt(path: string, sepIndex: int, dotIndex: int)
    requires sepIndex == RFind(path, '/') && dotIndex == RFind(path, '.')
    ensures dotIndex > sepIndex && !AllDots(path[sepIndex + 1..dotIndex]) ==> Extension(path) == path[dotIndex..]
    ensures !(dotIndex > sepIndex && !AllDots(path[sepIndex + 1..dotIndex])) ==> Extension(path) == ""
  {
  }

  /** The extension of the lowercased path is the lowercased extension. */
  lemma ExtensionToLower(path: string)
    ensures Extension(ToLower(path)) == ToLower(Extension(path))
  {
    RFindToLower(path, '/');
    RFindToLower(path, '.');
    var sepIndex := RFind(path, '/');
    var dotIndex := RFind(path, '.');
    if dotIndex > sepIndex {
      ToLowerSlice(path, sepIndex + 1, dotIndex);
      AllDotsToLower(path[sepIndex + 1..dotIndex]);
    }
    if dotIndex > sepIndex && !AllDots(path[sepIndex + 1..dotIndex]) {
      LowerExtensionFound(path, ToLower(path), sepIndex, dotIndex);
    } else {
      ExtensionAt(path, sepIndex, dotIndex);
      ExtensionAt(ToLower(path), sepIndex, dotIndex);
      assert ToLower("") == "";
    }
  }

  /** The case of `ExtensionToLower` where the path has an extension. */
  lemma LowerExtensionFound(path: string, low: string, sepIndex: int, dotIndex: int)
    requires |low| == |path| && forall i :: 0 <= i < |path| ==> low[i] == ToLowerChar(path[i])
    requires sepIndex == RFind(path, '/') && dotIndex == RFind(path, '.')
    requires sepIndex == RFind(low, '/') && dotIndex == RFind(low, '.')
    requires dotIndex > sepIndex && !AllDots(path[sepIndex + 1..dotIndex])
    requires !AllDots(low[sepIndex + 1..dotIndex])
    ensures Extension(low) == ToLower(Extension(path))
  {
    ExtensionAt(path, sepIndex, dotIndex);
    ExtensionAt(low, sepIndex, dotIndex);
    var e, le := path[dotIndex..], low[dotIndex..];
    forall i | 0 <= i < |e| ensures le[i] == ToLower(e)[i] {
      assert e[i] == path[dotIndex + i] && le[i] == low[dotIndex + i];
    }
    assert le == ToLower(e);
  }

  /** `X.PDF` and `x.pdf` pick the same loader: lowercasing the whole path
      first never changes the outcome. */
  lemma LowercasePathSameLoader(path: string)
    ensures LoadDocument(ToLower(path)) == LoadDocument(path)
  {
    ExtensionToLower(path);
    ToLowerIdempotent(Extension(path));
  }

  // ---------------------------------------------------------------------------
  // Only the last suffix counts
  // ---------------------------------------------------------------------------

  /** An extension-shaped suffix: a dot followed by characters that are
      neither dots nor slashes. */
  predicate IsSuffix(ext: string)
  {
    ext != [] && ext[0] == '.' && '.' !in ext[1..] && '/' !in ext
  }

  /** Appending a suffix to a path whose last component has a character
      other than a dot makes that suffix the extension, whatever suffixes the
      path already had. */
  lemma {:induction false} ExtensionOfAppended(stem: string, ext: string)
    requires IsSuffix(ext)
    requires !AllDots(stem[RFind(stem, '/') + 1..])
    ensures Extension(stem + ext) == ext
  {
    var path := stem + ext;
    var dotIndex := |stem|;
    RFindAppended(stem, ext, '.');
    RFindAppended(stem, ext, '/');
    var sepIndex := RFind(stem, '/');
    assert path[sepIndex + 1..dotIndex] == stem[sepIndex + 1..];
    assert path[dotIndex..] == ext;
  }

  /** Where the last `/` and the last `.` of `stem + ext` are. */
  lemma RFindAppended(stem: string, ext: string, c: char)
    requires IsSuffix(ext)
    requires c == '/' || c == '.'
    ensures c == '.' ==> RFind(stem + ext, c) == |stem|
    ensures c == '/' ==> RFind(stem + ext, c) == RFind(stem, c)
  {
    if c == '/' {
      RFindPastSuffix(stem, ext, '/');
    } else {
      var path := stem + ext;
      assert path[|stem| + 1..] == ext[1..];
      assert path[|stem|] == '.';
    }
  }

  /** Appending characters other than `c` does not move the last `c`. */
  lemma {:induction false} RFindPastSuffix(a: string, b: string, c: char)
    requires c !in b
    ensures RFind(a + b, c) == RFind(a, c)
    decreases |b|
  {
    if b == [] {
      assert a + b == a;
    } else {
      var s, front := a + b, b[..|b| - 1];
      assert b == front + [b[|b| - 1]];
      assert s[..|s| - 1] == a + front;
      assert s[|s| - 1] == b[|b| - 1];
      RFindPastSuffix(a, front, c);
    }
  }

  /** `rfind` is the only index holding `c` with no `c` after it. */
  lemma RFindUnique(s: string, c: char, r: int, q: int)
    requires r == RFind(s, c) && -1 <= q
    requires q == -1 ==> c !in s
    requires q >= 0 ==> q < |s| && s[q] == c && c !in s[q + 1..]
    ensures r == q
  {
  }

  /** Appending a suffix to a path whose last component is empty or all dots
      gives no extension: `splitext` skips the leading dots of a base name, so
      `..txt`, `.txt` and `a/...pdf` have none. */
  lemma {:induction false} ExtensionOfAppendedToDots(stem: string, ext: string)
    requires IsSuffix(ext)
    requires AllDots(stem[RFind(stem, '/') + 1..])
    ensures Extension(stem + ext) == ""
  {
    var path, k := stem + ext, RFind(stem, '/');
    assert RFind(path, '.') == |stem| by { RFindAppended(stem, ext, '.'); }
    assert RFind(path, '/') == k by { RFindPastSuffix(stem, ext, '/'); }
    assert path[k + 1..|stem|] == stem[k + 1..];
    ExtensionAt(path, k, |stem|);
  }

  /** A suffix after a base name of dots only is refused. */
  lemma DotsNameIsRefused(stem: string, ext: string)
    requires IsSuffix(ext)
    requires AllDots(stem[RFind(stem, '/') + 1..])
    ensures LoadDocument(stem + ext) == UnsupportedFileType(UnsupportedPrefix)
  {
    ExtensionOfAppendedToDots(stem, ext);
    NoExtensionIsRefused(stem + ext);
  }

  /** A top-level name of dots only, then a suffix, is refused: `.pdf` and
      `..txt`. */
  lemma TopLevelDotsAreRefused(dots: string, ext: string)
    requires IsSuffix(ext) && AllDots(dots)
    ensures LoadDocument(dots + ext) == UnsupportedFileType(UnsupportedPrefix)
  {
    assert '/' !in dots by {
      forall i | 0 <= i < |dots| ensures dots[i] != '/' { assert dots[i] == '.'; }
    }
    assert RFind(dots, '/') == -1;
    assert dots[0..] == dots;
    DotsNameIsRefused(dots, ext);
  }

  /** A name of dots only inside a directory, then a suffix, is refused:
      `a/...docx`. */
  lemma NestedDotsAreRefused(dir: string, dots: string, ext: string)
    requires IsSuffix(ext) && AllDots(dots)
    ensures LoadDocument(dir + "/" + dots + ext) == UnsupportedFileType(UnsupportedPrefix)
  {
    var stem := dir + "/" + dots;
    assert '/' !in dots by {
      forall i | 0 <= i < |dots| ensures dots[i] != '/' { assert dots[i] == '.'; }
    }
    assert RFind(dir + "/", '/') == |dir|;
    RFindPastSuffix(dir + "/", dots, '/');
    assert stem[|dir| + 1..] == dots;
    DotsNameIsRefused(stem, ext);
  }

  /** With two suffixes only the last one counts: `a.txt.bak` is refused and
      `a.pdf.txt` is read as text. */
  lemma {:induction false} LastSuffixCounts(stem: string, first: string, last: string)
    requires IsSuffix(first) && IsSuffix(last)
    requires !AllDots(stem[RFind(stem, '/') + 1..])
    ensures Extension(stem + first + last) == last
  {
    InnerName(stem, first);
    ExtensionOfAppended(stem + first, last);
  }

  /** Appending a suffix keeps a last component that is not all dots. */
  lemma InnerName(stem: string, first: string)
    requires IsSuffix(first)
    requires !AllDots(stem[RFind(stem, '/') + 1..])
    ensures !AllDots((stem + first)[RFind(stem + first, '/') + 1..])
  {
    var k := RFind(stem, '/') + 1;
    assert RFind(stem + first, '/') + 1 == k by { RFindPastSuffix(stem, first, '/'); }
    NotAllDotsExtended(stem, first, k);
  }

  /** A last component with a character other than a dot keeps it when the
      path is extended. */
  lemma NotAllDotsExtended(stem: string, more: string, k: nat)
    requires k <= |stem| && !AllDots(stem[k..])
    ensures !AllDots((stem + more)[k..])
  {
    var i :| 0 <= i < |stem[k..]| && stem[k..][i] != '.';
    assert (stem + more)[k..][i] == stem[k..][i];
  }

  lemma ExampleSuffixes()
    ensures IsSuffix(".txt") && IsSuffix(".bak") && IsSuffix(".pdf") && IsSuffix(".PDF") && IsSuffix(".docx")
    ensures ToLower(".txt") == ".txt" && ToLower(".bak") == ".bak"
    ensures ToLower(".PDF") == ".pdf" && ToLower(".pdf") == ".pdf" && ToLower(".docx") == ".docx"
  {
  }

  /** `a.txt.bak` is refused and `a.pdf.txt` is read as text. */
  lemma DoubleSuffixExamples(stem: string)
    requires !AllDots(stem[RFind(stem, '/') + 1..])
    ensures LoadDocument(stem + ".txt" + ".bak") == UnsupportedFileType(UnsupportedPrefix + ".bak")
    ensures LoadDocument(stem + ".pdf" + ".txt") == Loaded(TextLoader)
  {
    ExampleSuffixes();
    LastSuffixCounts(stem, ".txt", ".bak");
    LastSuffixCounts(stem, ".pdf", ".txt");
  }

  /** `X.PDF` and `x.pdf` are both read as PDF, `notes/report.docx` as docx. */
  lemma SingleSuffixExamples(stem: string)
    requires !AllDots(stem[RFind(stem, '/') + 1..])
    ensures LoadDocument(stem + ".PDF") == LoadDocument(stem + ".pdf") == Loaded(PyPdfLoader)
    ensures LoadDocument(stem + ".docx") == Loaded(Docx2txtLoader)
  {
    ExampleSuffixes();
    ExtensionOfAppended(stem, ".PDF");
    ExtensionOfAppended(stem, ".pdf");
    ExtensionOfAppended(stem, ".docx");
  }

  /** A path without an extension is refused, and the message names the
      empty extension. */
  lemma NoExtensionIsRefused(path: string)
    requires Extension(path) == ""
    ensures LoadDocument(path) == UnsupportedFileType(UnsupportedPrefix)
  {
    assert ToLower("") == "";
    assert UnsupportedPrefix + "" == UnsupportedPrefix;
  }

  /** A path without a dot has no extension and is refused. */
  lemma NoDotIsRefused(path: string)
    requires '.' !in path
    ensures LoadDocument(path) == UnsupportedFileType(UnsupportedPrefix)
  {
    assert RFind(path, '.') == -1;
    NoExtensionIsRefused(path);
  }

  /** A hidden file such as `.txt` has no extension and is refused. */
  lemma HiddenFileIsRefused(dir: string, name: string)
    requires '.' !in name && '/' !in name
    ensures LoadDocument(dir + "/." + name) == UnsupportedFileType(UnsupportedPrefix)
  {
    var path := dir + "/." + name;
    var k := |dir|;
    assert path[k] == '/' && path[k + 1] == '.';
    assert path[k + 2..] == name;
    assert path[k + 1..] == "." + name;
    RFindUnique(path, '/', RFind(path, '/'), k);
    RFindUnique(path, '.', RFind(path, '.'), k + 1);
    assert AllDots(path[k + 1..k + 1]);
    NoExtensionIsRefused(path);
  }

  /** A dot in a directory name is no extension: `dir.pdf/notes` is refused. */
  lemma DotInDirectoryIsRefused(dir: string, name: string)
    requires '.' !in name && '/' !in name
    ensures LoadDocument(dir + "/" + name) == UnsupportedFileType(UnsupportedPrefix)
  {
    var path := dir + "/" + name;
    var k := |dir|;
    assert path[k] == '/';
    assert path[k + 1..] == name;
    RFindUnique(path, '/', RFind(path, '/'), k);
    assert RFind(path, '.') < k;
    NoExtensionIsRefused(path);
  }
}
