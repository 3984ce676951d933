/**
 * The listing half of `resumeService.getUserResumes`: given the backend's
 * list of uploaded resume files and its list of parsed-JSON files, build one
 * `Resume` record per upload and join each upload to the parsed file that
 * shares its base name. The fetch itself is not modelled; its decoded body is
 * the input.
 */
module ResumeListing {
  import opened Wrappers
  import Strings

  /** One `{cloud_path, public_url}` entry of the backend's response; either field may be missing. */
  datatype StoredFile = StoredFile(cloudPath: Option<string>, publicUrl: Option<string>)

  /**
   * `data.data` of the response. `uploadedResume` is `None` when the field is
   * not an array; `parsedResumeJson` is `None` when the field is missing or falsy.
   */
  datatype Payload = Payload(uploadedResume: Option<seq<StoredFile>>, parsedResumeJson: Option<seq<StoredFile>>)

  /** The decoded response body; `data` is `None` when `data.data` is falsy. */
  datatype UserDataResponse = UserDataResponse(data: Option<Payload>)

  datatype ParsingStatus = Parsing | Completed | Failed

  /** The `Resume` record the listing hands to the UI. */
  datatype Resume = Resume(
    id: string,
    name: string,
    lastModified: string,
    url: Option<string>,
    cloudPath: Option<string>,
    jsonUrl: Option<string>,
    parsingStatus: Option<ParsingStatus>)

  /** `cloud_path || ''`. */
  function PathOrEmpty(path: Option<string>): string
  {
    if path.Some? then path.value else ""
  }

  /** `path.split('/').pop()`: the text after the last `/`, or all of `path` when it has none. */
  function LastSegment(path: string): (segment: string)
    ensures |segment| <= |path|
    ensures forall i :: 0 <= i < |segment| ==> segment[i] == path[|path| - |segment| + i] && segment[i] != '/'
    ensures |segment| < |path| ==> path[|path| - |segment| - 1] == '/'
  {
    if path == "" then ""
    else if path[|path| - 1] == '/' then ""
    else LastSegment(path[..|path| - 1]) + [path[|path| - 1]]
  }

  /** `s.split('.')[0]`: the text before the first `.`, or all of `s` when it has none. */
  function UpToFirstDot(s: string): (prefix: string)
    ensures '.' !in prefix
    ensures prefix <= s
    ensures |prefix| < |s| ==> s[|prefix|] == '.'
  {
    if s == "" || s[0] == '.' then "" else [s[0]] + UpToFirstDot(s[1..])
  }

  /** `path.split('/').pop()?.split('.')[0] || ''`: the join key of a file. */
  function BaseName(path: string): (key: string)
    ensures '/' !in key && '.' !in key
  {
    UpToFirstDot(LastSegment(path))
  }

  /** The join key of a backend record, whose path may be missing. */
  function KeyOf(file: StoredFile): string
  {
    BaseName(PathOrEmpty(file.cloudPath))
  }

  /** `cloudPath.split('/').pop() || \`Resume ${index + 1}\``. */
  function FileName(path: string, index: nat): string
  {
    var segment := LastSegment(path);
    if segment != "" then segment else "Resume " + Strings.NatToDecimal(index + 1)
  }

  /** The join key of every record of `files`, in order. */
  function KeysOf(files: seq<StoredFile>): seq<string>
  {
    seq(|files|, j requires 0 <= j < |files| => KeyOf(files[j]))
  }

  /** The position of the last occurrence of `key` in `keys`, if any. */
  function LastIndexOf(keys: seq<string>, key: string): (r: Option<nat>)
    ensures r.Some? ==> r.value < |keys| && keys[r.value] == key
    ensures r.Some? ==> forall j :: r.value < j < |keys| ==> keys[j] != key
    ensures r.None? ==> forall j :: 0 <= j < |keys| ==> keys[j] != key
  {
    if keys == [] then None
    else if keys[|keys| - 1] == key then Some(|keys| - 1)
    else LastIndexOf(keys[..|keys| - 1], key)
  }

  /** The keys of `files + [file]` are those of `files` followed by the key of `file`. */
  lemma KeysOfSnoc(files: seq<StoredFile>, file: StoredFile)
    ensures KeysOf(files + [file]) == KeysOf(files) + [KeyOf(file)]
  {
    var l := KeysOf(files + [file]);
    var r := KeysOf(files) + [KeyOf(file)];
    assert |l| == |r|;
    forall j | 0 <= j < |l| ensures l[j] == r[j] {
      if j < |files| {
        assert (files + [file])[j] == files[j];
      }
    }
  }

  /** Extending the keys by one key `x`: `x` is now last, every other key keeps its last position. */
  lemma LastIndexOfSnoc(keys: seq<string>, x: string, key: string)
    ensures LastIndexOf(keys + [x], key) == if x == key then Some(|keys|) else LastIndexOf(keys, key)
  {
    assert (keys + [x])[..|keys|] == keys;
  }

  /**
   * The url an upload with key `key` is joined to, stated without the table:
   * the url of the LAST parsed record with that key, when it is truthy.
   */
  function JoinedUrl(parsed: seq<StoredFile>, key: string): Option<string>
  {
    match LastIndexOf(KeysOf(parsed), key)
    case None => None
    case Some(j) => Strings.OrNull(parsed[j].publicUrl)
  }

  /** The table of lines 34-41: base name to the url last stored under it. */
  type ParsedTable = map<string, Option<string>>

  /** `parsedJsonMap.get(key) || null`. */
  function TableUrl(table: ParsedTable, key: string): Option<string>
  {
    if key in table then Strings.OrNull(table[key]) else None
  }

  /**
   * The `forEach` of lines 36-41: one `Map.set` per parsed record, in order.
   * Every key of a parsed record ends up in the table, mapped to the url of
   * the last record with that key.
   */
  method BuildParsedTable(parsed: seq<StoredFile>) returns (table: ParsedTable)
    ensures forall key :: key in table <==> LastIndexOf(KeysOf(parsed), key).Some?
    ensures forall key :: key in table ==> table[key] == parsed[LastIndexOf(KeysOf(parsed), key).value].publicUrl
  {
    ghost var keys := KeysOf(parsed);
    table := map[];
    var i := 0;
    while i < |parsed|
      invariant 0 <= i <= |parsed|
      invariant forall key :: key in table <==> LastIndexOf(keys[..i], key).Some?
      invariant forall key :: key in table ==> table[key] == parsed[LastIndexOf(keys[..i], key).value].publicUrl
    {
      assert keys[..i + 1] == keys[..i] + [KeyOf(parsed[i])];
      forall key {
        LastIndexOfSnoc(keys[..i], KeyOf(parsed[i]), key);
      }
      table := table[KeyOf(parsed[i]) := parsed[i].publicUrl];
      i := i + 1;
    }
    assert keys[..i] == keys;
  }

  /** The record of lines 54-63 for the upload at position `index`. */
  function ToResume(index: nat, upload: StoredFile, table: ParsedTable, today: string): Resume
  {
    var path := PathOrEmpty(upload.cloudPath);
    var jsonUrl := TableUrl(table, BaseName(path));
    Resume(
      Strings.NatToDecimal(index),
      FileName(path, index),
      today,
      upload.publicUrl,
      upload.cloudPath,
      jsonUrl,
      if jsonUrl.Some? then Some(Completed) else None)
  }

  /** The uploads when `data.data.uploaded_resume` is an array. */
  function Uploads(response: UserDataResponse): Option<seq<StoredFile>>
  {
    if response.data.Some? then response.data.value.uploadedResume else None
  }

  /** The parsed records, empty when `parsed_resume_json` is missing. */
  function ParsedOf(response: UserDataResponse): seq<StoredFile>
  {
    if response.data.Some? && response.data.value.parsedResumeJson.Some?
    then response.data.value.parsedResumeJson.value
    else []
  }

  /** What the listing promises of the record it builds for the upload at position `index`. */
  predicate ListedAs(r: Resume, index: nat, upload: StoredFile, parsed: seq<StoredFile>, today: string)
  {
    var path := PathOrEmpty(upload.cloudPath);
    && r.id == Strings.NatToDecimal(index)
    && r.name == FileName(path, index)
    && r.lastModified == today
    && r.url == upload.publicUrl
    && r.cloudPath == upload.cloudPath
    && r.jsonUrl == JoinedUrl(parsed, BaseName(path))
    && (r.parsingStatus == Some(Completed) <==> r.jsonUrl.Some?)
    && (r.parsingStatus.Some? ==> r.parsingStatus == Some(Completed))
  }

  /** The table answers every lookup as the reference join does. */
  lemma TableAgreesWithJoin(parsed: seq<StoredFile>, table: ParsedTable, key: string)
    requires forall k :: k in table <==> LastIndexOf(KeysOf(parsed), k).Some?
    requires forall k :: k in table ==> table[k] == parsed[LastIndexOf(KeysOf(parsed), k).value].publicUrl
    ensures TableUrl(table, key) == JoinedUrl(parsed, key)
  {
  }

  /**
   * `getUserResumes` after the fetch (lines 32-67): one record per upload, in
   * order, each joined to the last parsed file with the same base name; no
   * records when the uploads are not an array.
   */
  method GetUserResumes(response: UserDataResponse, today: string) returns (resumes: seq<Resume>)
    ensures Uploads(response).None? ==> resumes == []
    ensures Uploads(response).Some? ==> |resumes| == |Uploads(response).value|
    ensures Uploads(response).Some? ==>
      forall i :: 0 <= i < |resumes| ==> ListedAs(resumes[i], i, Uploads(response).value[i], ParsedOf(response), today)
    ensures ParsedOf(response) == [] ==> forall i :: 0 <= i < |resumes| ==> resumes[i].jsonUrl.None?
  {
    var uploads := Uploads(response);
    if uploads.None? {
      return [];
    }
    var parsed := ParsedOf(response);
    var table := BuildParsedTable(parsed);
    var ups := uploads.value;
    resumes := seq(|ups|, i requires 0 <= i < |ups| => ToResume(i, ups[i], table, today));
    forall i | 0 <= i < |resumes|
      ensures ListedAs(resumes[i], i, ups[i], parsed, today)
    {
      TableAgreesWithJoin(parsed, table, BaseName(PathOrEmpty(ups[i].cloudPath)));
    }
  }

  /** No two records of a listing share an id. */
  lemma IdsAreDistinct(resumes: seq<Resume>)
    requires forall i :: 0 <= i < |resumes| ==> resumes[i].id == Strings.NatToDecimal(i)
    ensures forall i, j :: 0 <= i < j < |resumes| ==> resumes[i].id != resumes[j].id
  {
    forall i, j | 0 <= i < j < |resumes| ensures resumes[i].id != resumes[j].id {
      Strings.DecimalInjective(i, j);
    }
  }

  /** The last segment is empty exactly for an empty path and a path ending in `/`. */
  lemma EmptySegmentCases(path: string)
    ensures LastSegment(path) == "" <==> path == "" || path[|path| - 1] == '/'
  {
  }

  /**
   * The name is the last segment of the path; for an empty path or a path
   * ending in `/` it is `Resume <index + 1>`. It is never empty.
   */
  lemma FallbackName(path: string, index: nat)
    ensures (path == "" || path[|path| - 1] == '/') ==> FileName(path, index) == "Resume " + Strings.NatToDecimal(index + 1)
    ensures !(path == "" || path[|path| - 1] == '/') ==> FileName(path, index) == LastSegment(path)
    ensures FileName(path, index) != ""
  {
    EmptySegmentCases(path);
  }

  /** The key is empty exactly when the last segment is empty or starts with a dot. */
  lemma EmptyKeyCases(path: string)
    ensures BaseName(path) == "" <==> (LastSegment(path) == "" || LastSegment(path)[0] == '.')
  {
  }

  /** The last segment of `dir/segment` is `segment` when `segment` has no `/`. */
  lemma {:induction false} LastSegmentOfJoin(dir: string, segment: string)
    requires '/' !in segment
    ensures LastSegment(dir + "/" + segment) == segment
    decreases |segment|
  {
    var path := dir + "/" + segment;
    if segment == "" {
      assert path[|path| - 1] == '/';
    } else {
      var init, last := segment[..|segment| - 1], segment[|segment| - 1];
      assert segment == init + [last];
      assert last in segment;
      assert path == (dir + "/" + init) + [last];
      assert path[..|path| - 1] == dir + "/" + init;
      assert '/' !in init by {
        forall c | c in init ensures c in segment { }
      }
      LastSegmentOfJoin(dir, init);
      assert LastSegment(path) == LastSegment(dir + "/" + init) + [last];
    }
  }

  /** The text before the first dot of `stem.rest` is `stem` when `stem` has no dot. */
  lemma {:induction false} UpToFirstDotOfStem(stem: string, rest: string)
    requires '.' !in stem
    ensures UpToFirstDot(stem + "." + rest) == stem
    decreases |stem|
  {
    var s := stem + "." + rest;
    if stem != "" {
      assert s[1..] == stem[1..] + "." + rest;
      UpToFirstDotOfStem(stem[1..], rest);
      assert [stem[0]] + stem[1..] == stem;
    } else {
      assert s[0] == '.';
    }
  }

  /** A file `dir/stem.rest` is keyed by `stem`: everything after the first dot is ignored. */
  lemma KeyIsStem(dir: string, stem: string, rest: string)
    requires '/' !in stem && '.' !in stem && '/' !in rest
    ensures BaseName(dir + "/" + stem + "." + rest) == stem
  {
    assert dir + "/" + stem + "." + rest == dir + "/" + (stem + "." + rest);
    LastSegmentOfJoin(dir, stem + "." + rest);
    UpToFirstDotOfStem(stem, rest);
  }

  /**
   * An empty path, a path ending in `/` and a last segment starting with a
   * dot all have the empty key, so such uploads join with the parsed records
   * whose key is empty too.
   */
  lemma EmptyKeyExamples(dir: string, rest: string)
    requires '/' !in rest
    ensures BaseName("") == ""
    ensures BaseName(dir + "/") == ""
    ensures BaseName(dir + "/" + "." + rest) == ""
  {
    LastSegmentOfJoin(dir, "");
    assert dir + "/" + "" == dir + "/";
    LastSegmentOfJoin(dir, "." + rest);
    assert dir + "/" + "." + rest == dir + "/" + ("." + rest);
  }

  /**
   * An upload and a parsed file made from the same timestamp share their key:
   * any two paths `dir/stamp.rest` with the same `stamp` do.
   */
  lemma TimestampJoin(uploadDir: string, parsedDir: string, stamp: string, uploadRest: string, parsedRest: string)
    requires '/' !in stamp && '.' !in stamp && '/' !in uploadRest && '/' !in parsedRest
    ensures BaseName(uploadDir + "/" + stamp + "." + uploadRest) == BaseName(parsedDir + "/" + stamp + "." + parsedRest) == stamp
  {
    KeyIsStem(uploadDir, stamp, uploadRest);
    KeyIsStem(parsedDir, stamp, parsedRest);
  }

  /** Appending a parsed record decides its own key (last write wins) and leaves every other key as it was. */
  lemma LastWriteWins(parsed: seq<StoredFile>, file: StoredFile, key: string)
    ensures key == KeyOf(file) ==> JoinedUrl(parsed + [file], key) == Strings.OrNull(file.publicUrl)
    ensures key != KeyOf(file) ==> JoinedUrl(parsed + [file], key) == JoinedUrl(parsed, key)
  {
    KeysOfSnoc(parsed, file);
    LastIndexOfSnoc(KeysOf(parsed), KeyOf(file), key);
  }

  /** An upload is joined exactly when some parsed record shares its key and the last such record has a truthy url. */
  lemma JoinedIffMatch(parsed: seq<StoredFile>, key: string)
    ensures JoinedUrl(parsed, key).Some? <==>
      exists j :: 0 <= j < |parsed| && KeyOf(parsed[j]) == key
        && Strings.Truthy(parsed[j].publicUrl)
        && forall k :: j < k < |parsed| ==> KeyOf(parsed[k]) != key
  {
    var keys := KeysOf(parsed);
    assert |keys| == |parsed| && forall k :: 0 <= k < |parsed| ==> keys[k] == KeyOf(parsed[k]);
    var r := LastIndexOf(keys, key);
    if JoinedUrl(parsed, key).Some? {
      var j := r.value;
      assert KeyOf(parsed[j]) == key && Strings.Truthy(parsed[j].publicUrl);
      assert forall k :: j < k < |parsed| ==> keys[k] != key;
    }
    if exists j :: 0 <= j < |parsed| && KeyOf(parsed[j]) == key
        && Strings.Truthy(parsed[j].publicUrl)
        && forall k :: j < k < |parsed| ==> KeyOf(parsed[k]) != key {
      var j :| 0 <= j < |parsed| && KeyOf(parsed[j]) == key
        && Strings.Truthy(parsed[j].publicUrl)
        && forall k :: j < k < |parsed| ==> KeyOf(parsed[k]) != key;
      assert keys[j] == key;
      assert r.Some?;
      assert r.value == j;
    }
  }
}
