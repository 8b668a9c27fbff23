/**
  The file downloader of the setup tool: the parameters of one download are normalised when
  the downloader is built (an empty directory becomes the default download directory, and the
  directory and an explicit file name are sanitised), and the output path is the directory,
  with a trailing backslash, followed by the file name.

  The default download directory (SHGetFolderPathA) is a constructor parameter, the directory
  creation is left out, and the outcomes of the libcurl and file calls are parameters of
  `Download`.
*/
module Downloader {
  import opened Optional

  /** dl_result: the outcome of one download. */
  datatype DlResult =
    | Success
    | CurlInitFailed
    | EasyInitFailed
    | EasySetoptFailed
    | PerformFailed
    | FileCreationFailed
    | InvalidOutputPath

  /** dl_params: what to download and where. */
  datatype DlParams = DlParams(url: string, outputDir: string, filename: string, showProgress: bool)

  /** The characters Windows does not allow in a file name. */
  const IllegalChars: string := "<>:\"/\\|?*"

  predicate Illegal(c: char) {
    c == '<' || c == '>' || c == ':' || c == '"' || c == '/' || c == '\\' || c == '|' || c == '?' || c == '*'
  }

  /** Illegal is membership in IllegalChars, written out character by character. */
  lemma IllegalIsListed(c: char)
    ensures Illegal(c) <==> c in IllegalChars
  {
    assert IllegalChars == ['<', '>', ':', '"', '/', '\\', '|', '?', '*'];
  }

  /** A string holding no illegal character. */
  predicate Clean(s: string) {
    forall i :: 0 <= i < |s| ==> !Illegal(s[i])
  }

  function SanitizeChar(c: char): (d: char)
    ensures !Illegal(d)
    ensures Illegal(c) ==> d == '_'
    ensures !Illegal(c) ==> d == c
  {
    if Illegal(c) then '_' else c
  }

  /** The string sanitize_path returns for `path`. */
  function Sanitize(path: string): string {
    if path == [] then [] else [SanitizeChar(path[0])] + Sanitize(path[1..])
  }

  /**
    sanitize_path keeps the length and replaces each illegal character, and only those,
    by an underscore.
  */
  lemma {:induction false} SanitizeAt(path: string)
    ensures |Sanitize(path)| == |path|
    ensures forall i :: 0 <= i < |path| ==> Sanitize(path)[i] == SanitizeChar(path[i])
  {
    if path != [] {
      SanitizeAt(path[1..]);
      assert forall i :: 1 <= i < |path| ==> Sanitize(path)[i] == Sanitize(path[1..])[i - 1];
    }
  }

  /** Nothing illegal is left after sanitising. */
  lemma {:induction false} SanitizeClean(path: string)
    ensures Clean(Sanitize(path))
  {
    SanitizeAt(path);
  }

  /** A clean string is left as it is, so sanitising twice is sanitising once. */
  lemma {:induction false} SanitizeIdempotent(path: string)
    ensures Clean(path) ==> Sanitize(path) == path
    ensures Sanitize(Sanitize(path)) == Sanitize(path)
  {
    SanitizeAt(path);
    SanitizeAt(Sanitize(path));
  }

  /**
    A directory given with a drive, such as the fallback `C:\Users\Public\Downloads\`, loses
    its drive colon and every backslash to the constructor's sanitising: what is left names a
    single relative directory.
  */
  lemma DriveDirectoryFlattened(dir: string)
    requires |dir| >= 3 && dir[1] == ':' && dir[2] == '\\'
    ensures var d := Sanitize(dir);
      |d| == |dir| && d[0] == SanitizeChar(dir[0]) && d[1] == '_' && d[2] == '_' &&
      forall i :: 0 <= i < |d| ==> d[i] != ':' && d[i] != '\\'
  {
    SanitizeAt(dir);
  }

  /** The directory part of the output path: a non-empty directory ends in a backslash. */
  function WithSeparator(dir: string): (d: string)
    ensures dir == [] ==> d == []
    ensures dir != [] ==> |dir| <= |d| && d[|d| - 1] == '\\' && d[..|dir|] == dir
    ensures dir != [] && dir[|dir| - 1] == '\\' ==> d == dir
    ensures dir != [] && dir[|dir| - 1] != '\\' ==> d == dir + ['\\']
  {
    if dir != [] && dir[|dir| - 1] != '\\' then dir + ['\\'] else dir
  }

  /** find_last_of('/'): the position of the last slash in `s`, if any. */
  function LastSlash(s: string): (r: Option<nat>)
    ensures r.Some? ==> r.value < |s| && s[r.value] == '/'
    ensures r.Some? ==> forall j :: r.value < j < |s| ==> s[j] != '/'
    ensures r.None? <==> forall j :: 0 <= j < |s| ==> s[j] != '/'
    decreases |s|
  {
    if s == [] then None
    else if s[|s| - 1] == '/' then Some(|s| - 1)
    else LastSlash(s[..|s| - 1])
  }

  const FallbackName: string := "downloaded_file"

  /**
    The file name part of the output path: an explicit name, else what follows the URL's
    last slash when something does, else "downloaded_file".
  */
  function FileNamePart(url: string, filename: string): (name: string)
    ensures name != []
    ensures filename != [] ==> name == filename
    ensures filename == [] && (forall j :: 0 <= j < |url| ==> url[j] != '/') ==> name == FallbackName
    ensures filename == [] && url != [] && url[|url| - 1] == '/' ==> name == FallbackName
    ensures filename == [] && (exists j :: 0 <= j < |url| && url[j] == '/') && url[|url| - 1] != '/' ==>
      && |name| < |url|
      && url[|url| - |name| - 1] == '/'
      && name == url[|url| - |name|..]
      && forall j :: 0 <= j < |name| ==> name[j] != '/'
  {
    if filename != [] then filename
    else
      match LastSlash(url)
      case Some(k) =>
        if k + 1 < |url| then
          url[k + 1..]
        else FallbackName
      case None => FallbackName
  }

  /**
    A name taken from the URL is used as it is, without sanitising: for the URL
    `https://h/get?id=1` the file name is `get?id=1`, which Windows refuses.
  */
  lemma UrlNameNotSanitised(prefix: string, name: string)
    requires name != [] && forall j :: 0 <= j < |name| ==> name[j] != '/'
    ensures FileNamePart(prefix + ['/'] + name, []) == name
  {
    var url := prefix + ['/'] + name;
    assert url[|prefix|] == '/';
    assert forall j :: |prefix| < j < |url| ==> url[j] == name[j - |prefix| - 1];
    assert LastSlash(url) == Some(|prefix|);
    assert url[|prefix| + 1..] == name;
  }

  /** get_output_path as a value: the directory with its separator, then the file name. */
  function OutputPath(p: DlParams): (path: string)
    ensures path != []
    ensures |path| >= |p.outputDir| && path[..|p.outputDir|] == p.outputDir
  {
    WithSeparator(p.outputDir) + FileNamePart(p.url, p.filename)
  }

  /**
    A clean non-empty directory never ends in a backslash, so get_output_path always adds
    one between it and the file name.
  */
  lemma SeparatorAlwaysAdded(p: DlParams)
    requires Clean(p.outputDir) && p.outputDir != []
    ensures OutputPath(p) == p.outputDir + ['\\'] + FileNamePart(p.url, p.filename)
  {
    assert Illegal('\\');
  }

  /** get_result_message: the text shown for each outcome is never empty. */
  function ResultMessage(r: DlResult): (m: string)
    ensures m != []
  {
    match r
    case Success => "Download completed successfully"
    case CurlInitFailed => "Failed to initialize libcurl"
    case EasyInitFailed => "Failed to initialize curl easy handle"
    case EasySetoptFailed => "Failed to set curl option"
    case PerformFailed => "Download failed"
    case FileCreationFailed => "Failed to create output file"
    case InvalidOutputPath => "Invalid output path"
  }

  /** The messages differ in length, except two that differ in their eleventh character. */
  lemma ResultMessagesDistinct(a: DlResult, b: DlResult)
    ensures a != b ==> ResultMessage(a) != ResultMessage(b)
  {
    var lengths := map[Success := 31, CurlInitFailed := 28, EasyInitFailed := 37, EasySetoptFailed := 25,
                       PerformFailed := 15, FileCreationFailed := 28, InvalidOutputPath := 19];
    assert |ResultMessage(a)| == lengths[a];
    assert |ResultMessage(b)| == lengths[b];
    assert ResultMessage(CurlInitFailed)[10] != ResultMessage(FileCreationFailed)[10];
  }

  /** sanitize_path: a copy of `path` in which each illegal character is replaced in place. */
  method SanitizePath(path: string) returns (sanitized: string)
    ensures sanitized == Sanitize(path)
    ensures |sanitized| == |path| && Clean(sanitized)
    ensures forall i :: 0 <= i < |path| ==> sanitized[i] == (if Illegal(path[i]) then '_' else path[i])
  {
    sanitized := path;
    var i := 0;
    while i < |sanitized|
      invariant 0 <= i <= |sanitized| == |path|
      invariant forall j :: 0 <= j < i ==> sanitized[j] == SanitizeChar(path[j])
      invariant forall j :: i <= j < |path| ==> sanitized[j] == path[j]
    {
      if Illegal(sanitized[i]) {
        sanitized := sanitized[i := '_'];
      }
      i := i + 1;
    }
    SanitizeAt(path);
  }

  class Downloader {
    /** m_params: the normalised parameters. */
    var params: DlParams

    /** The directory and the file name hold no illegal character. */
    ghost predicate Valid()
      reads this
    {
      Clean(params.outputDir) && Clean(params.filename)
    }

    /**
      The constructor: an empty directory is replaced by `defaultDir`; the directory is
      then always sanitised, the file name only when one is given; the URL and the progress
      flag are kept.
    */
    constructor (p: DlParams, defaultDir: string)
      ensures Valid()
      ensures params.url == p.url && params.showProgress == p.showProgress
      ensures params.outputDir == Sanitize(if p.outputDir == [] then defaultDir else p.outputDir)
      ensures params.filename == (if p.filename == [] then [] else Sanitize(p.filename))
    {
      params := p;
      new;
      if params.outputDir == [] {
        params := params.(outputDir := defaultDir);
      }
      var dir := SanitizePath(params.outputDir);
      params := params.(outputDir := dir);
      if params.filename != [] {
        var name := SanitizePath(params.filename);
        params := params.(filename := name);
      }
    }

    /** get_output_path: the directory, given a trailing backslash, then the file name. */
    method GetOutputPath() returns (path: string)
      requires Valid()
      ensures path == OutputPath(params)
      ensures path != []
      ensures params.outputDir != [] ==> path == params.outputDir + ['\\'] + FileNamePart(params.url, params.filename)
    {
      path := params.outputDir;
      if path != [] && path[|path| - 1] != '\\' {
        path := path + ['\\'];
      }
      assert path == WithSeparator(params.outputDir);
      var filename: string;
      if params.filename != [] {
        filename := params.filename;
      } else {
        var lastSlash := LastSlash(params.url);
        if lastSlash.Some? && lastSlash.value + 1 < |params.url| {
          filename := params.url[lastSlash.value + 1..];
        } else {
          filename := FallbackName;
        }
      }
      assert filename == FileNamePart(params.url, params.filename);
      path := path + filename;
      if params.outputDir != [] {
        SeparatorAlwaysAdded(params);
      }
    }

    /**
      download: `easyInitOk`, `fileOpened`, `performOk` and `removed` are the replies of
      curl_easy_init, fopen_s, curl_easy_perform and std::remove. The output path is never
      empty, so InvalidOutputPath is never returned. A file is left on disk after a successful
      transfer, and after a failed one whose removal failed, since that reply is ignored. The
      easy handle is cleaned up only on success: every failure after curl_easy_init leaks it.
    */
    method Download(easyInitOk: bool, fileOpened: bool, performOk: bool, removed: bool)
      returns (r: DlResult, fileLeft: Option<string>, handleLeaked: bool)
      requires Valid()
      ensures r != InvalidOutputPath && r != CurlInitFailed && r != EasySetoptFailed
      ensures r == EasyInitFailed <==> !easyInitOk
      ensures r == FileCreationFailed <==> easyInitOk && !fileOpened
      ensures r == PerformFailed <==> easyInitOk && fileOpened && !performOk
      ensures r == Success <==> easyInitOk && fileOpened && performOk
      ensures fileLeft == (if r == Success || (r == PerformFailed && !removed) then Some(OutputPath(params)) else None)
      ensures handleLeaked <==> easyInitOk && r != Success
    {
      if !easyInitOk {
        return EasyInitFailed, None, false;
      }
      var outputPath := GetOutputPath();
      if outputPath == [] {
        assert false;
        return InvalidOutputPath, None, true;
      }
      if !fileOpened {
        return FileCreationFailed, None, true;
      }
      if !performOk {
        fileLeft := if removed then None else Some(outputPath);
        return PerformFailed, fileLeft, true;
      }
      return Success, Some(outputPath), false;
    }
  }
}
