/** The admin file manager (src/pages/admin/Files.jsx): choosing a module
    and a section, uploading a file into the `platform-files` bucket and
    recording it in `files`, and deleting a file with its stored object.
    `Math.random()` is the `randomName` parameter (its decimal rendering);
    the public URL computed by the storage client is the `publicUrl` parameter. */
module Files {
  import opened Remote
  import opened Content
  import opened Text

  /** The bucket's name as it appears inside its public URLs. */
  const BucketMarker := "/platform-files/"
  const UploadDir := "uploads/"

  const ImageExtensions: seq<string> := ["jpg", "jpeg", "png", "gif"]
  const VideoExtensions: seq<string> := ["mp4", "webm"]

  /** `ext` is the text after the last dot of `name`, or all of `name` when
      it has no dot: a dot-free suffix, preceded by a dot if there is one. */
  predicate IsExtension(name: string, ext: string) {
    && '.' !in ext
    && EndsWith(name, ext)
    && ('.' !in name ==> ext == name)
    && ('.' in name ==> |ext| < |name| && name[|name| - |ext| - 1] == '.')
  }

  /** `name.split('.').pop()`. */
  function Extension(name: string): (ext: string)
    ensures IsExtension(name, ext)
  {
    var parts := Split(name, ".");
    SplitPiecesFree(name, ".");
    SplitLastSuffix(name, ".");
    SplitCount(name, ".");
    ContainsChar(name, '.');
    ContainsChar(Last(parts), '.');
    if |parts| > 1 then
      SplitLastPreceded(name, ".");
      Last(parts)
    else
      Last(parts)
  }

  /** The type recorded for an extension, decided on its lower-cased form:
      exactly one of the four. */
  function Classify(ext: string): (t: FileType)
    ensures t == Image <==> ToLower(ext) in ImageExtensions
    ensures t == Video <==> ToLower(ext) in VideoExtensions
    ensures t == Pdf <==> ToLower(ext) == "pdf"
    ensures t == GenericFile <==> ToLower(ext) !in ImageExtensions + VideoExtensions + ["pdf"]
  {
    var lower := ToLower(ext);
    if lower in ImageExtensions then Image
    else if lower in VideoExtensions then Video
    else if lower == "pdf" then Pdf
    else GenericFile
  }

  /** The `file_type` column's text for each type. */
  function WireName(t: FileType): string {
    match t
    case Image => "image"
    case Video => "video"
    case Pdf => "pdf"
    case GenericFile => "file"
  }

  /** Distinct types are recorded as distinct texts. */
  lemma WireNamesDistinct(t: FileType, u: FileType)
    ensures WireName(t) == WireName(u) ==> t == u
  {
  }

  /** The classifier does not depend on how the extension is cased. */
  lemma ClassifyIgnoresCase(ext: string)
    ensures Classify(ToUpper(ext)) == Classify(ext)
    ensures Classify(ToLower(ext)) == Classify(ext)
  {
    LowerIgnoresCase(ext);
  }

  /** ``uploads/${randomName}.${ext}``. */
  function UploadPath(randomName: string, ext: string): (path: string)
    ensures StartsWith(path, UploadDir)
    ensures EndsWith(path, "." + ext)
  {
    var path := UploadDir + randomName + "." + ext;
    assert path[|path| - |"." + ext|..] == "." + ext;
    path
  }

  /** The extension of the stored object is the one the upload started from. */
  lemma ExtensionOfUploadPath(randomName: string, ext: string)
    requires '.' !in ext
    ensures Extension(UploadPath(randomName, ext)) == ext
  {
    var path := UploadPath(randomName, ext);
    var e := Extension(path);
    var dot := |path| - |ext| - 1;
    assert path[dot] == '.';
    assert path[dot + 1..] == ext;
  }

  /** `url.split('/platform-files/')[1]` when the split yields more than one
      piece, that is when the URL holds the marker. */
  function StoragePathOf(url: string): (path: Option<string>)
    ensures path.None? <==> !Contains(url, BucketMarker)
  {
    var parts := Split(url, BucketMarker);
    SplitCount(url, BucketMarker);
    if |parts| > 1 then Some(parts[1]) else None
  }

  /** The recovered path is the text after the first marker, up to the next
      marker if there is one. */
  lemma StoragePathOfSegment(url: string)
    requires Contains(url, BucketMarker)
    ensures
      var i := IndexOf(url, BucketMarker, 0).value;
      var rest := url[i + |BucketMarker|..];
      var path := StoragePathOf(url).value;
      && StartsWith(rest, path)
      && !Contains(path, BucketMarker)
      && (|path| == |rest| || OccursAt(rest, BucketMarker, |path|))
  {
    SplitCount(url, BucketMarker);
    var i := IndexOf(url, BucketMarker, 0).value;
    var rest := url[i + |BucketMarker|..];
    assert Split(url, BucketMarker) == [url[..i]] + Split(rest, BucketMarker);
    SplitFirst(rest, BucketMarker);
    SplitPiecesFree(rest, BucketMarker);
    SplitCount(rest, BucketMarker);
  }

  /** A URL whose first marker closes `base` and whose tail holds no marker
      gives back that tail. */
  lemma StoragePathOfUrl(base: string, path: string)
    requires IndexOf(base + BucketMarker, BucketMarker, 0) == Some(|base|)
    requires !Contains(path, BucketMarker)
    ensures StoragePathOf(base + BucketMarker + path) == Some(path)
  {
    SplitAtFirst(base, BucketMarker, path);
  }

  /** The upload path holds a single slash, so it never holds the marker,
      which has two slashes fifteen characters apart. */
  lemma UploadPathHasNoMarker(randomName: string, ext: string)
    requires '/' !in randomName && '/' !in ext
    ensures !Contains(UploadPath(randomName, ext), BucketMarker)
  {
    var p := UploadPath(randomName, ext);
    assert forall k :: 0 <= k < |p| && k != 7 ==> p[k] != '/' by {
      forall k | 0 <= k < |p| && k != 7 ensures p[k] != '/' {
        if k < 8 {
          assert p[k] == UploadDir[k];
        } else if k < 8 + |randomName| {
          assert p[k] == randomName[k - 8];
        } else if k > 8 + |randomName| {
          assert p[k] == ext[k - 9 - |randomName|];
        }
      }
    }
    forall j: nat | j <= |p| ensures !OccursAt(p, BucketMarker, j) {
      if j + |BucketMarker| <= |p| {
        if j != 7 {
          assert p[j..j + |BucketMarker|][0] != BucketMarker[0];
        } else {
          assert p[j..j + |BucketMarker|][15] != BucketMarker[15];
        }
      }
    }
  }

  /** Deleting a file finds the object its upload stored: for a public URL
      made of a base and the uploaded path, the recovered path is that path. */
  lemma DeleteFindsUploadedObject(base: string, randomName: string, ext: string)
    requires IndexOf(base + BucketMarker, BucketMarker, 0) == Some(|base|)
    requires '/' !in randomName && '/' !in ext
    ensures StoragePathOf(base + BucketMarker + UploadPath(randomName, ext)) == Some(UploadPath(randomName, ext))
  {
    UploadPathHasNoMarker(randomName, ext);
    StoragePathOfUrl(base, UploadPath(randomName, ext));
  }

  /** What the page asks of the hosted service. */
  datatype Request =
    | FetchSections(moduleId: string)
    | FetchFiles(sectionId: string)
    | UploadObject(path: string)
    | InsertFile(row: FileRow)
    | RemoveObject(path: string)
    | DeleteFile(id: string)

  /** The upload of a picked file: under `uploads/`, named by the random
      number and the file's extension (which `ExtensionOfUploadPath` reads
      back from the path unchanged). */
  function UploadRequest(randomName: string, name: string): (r: Request)
    ensures r.UploadObject? && StartsWith(r.path, UploadDir)
    ensures EndsWith(r.path, "." + Extension(name))
  {
    UploadObject(UploadPath(randomName, Extension(name)))
  }

  /** The row recorded for an uploaded file: the selected section, the
      title and the public URL, typed by the extension of the file's name
      (which `Classify` decides on its lower-cased form). Its `file_type` column holds `WireName(row.fileType)`. */
  function RecordedRow(sectionId: string, title: string, fileUrl: string, name: string): (row: FileRow)
    ensures row.sectionId == sectionId && row.title == title && row.fileUrl == fileUrl
    ensures row.fileType == Classify(Extension(name))
  {
    FileRow(sectionId, title, fileUrl, Classify(Extension(name)))
  }

  /** The alerts the page shows. */
  datatype Notice = UploadSucceeded | UploadFailed(message: string) | DeleteSucceeded | DeleteFailed

  /** The file picked in the browser; only its name is used here. */
  datatype Picked = Picked(name: string)

  /** The handler's early return: nothing happens without a file, a
      selected section and a title. */
  predicate UploadGuarded(file: Option<Picked>, selectedSection: string, fileTitle: string) {
    file.None? || selectedSection == "" || fileTitle == ""
  }

  class FilesPage {
    var modules: seq<ModuleRow>
    var selectedModule: string
    var sections: seq<StoredSection>
    var selectedSection: string
    var files: seq<ListedFile>
    var loading: bool
    var uploading: bool
    var fileTitle: string

    constructor ()
      ensures modules == [] && sections == [] && files == []
      ensures selectedModule == "" && selectedSection == "" && fileTitle == ""
      ensures loading && !uploading
    {
      modules, sections, files := [], [], [];
      selectedModule, selectedSection, fileTitle := "", "", "";
      loading, uploading := true, false;
    }

    /** `fetchModules`: the list (empty when none came back), the first
        module selected when there is one, and the page leaves loading. */
    method OnModulesFetched(data: Option<seq<ModuleRow>>)
      modifies this
      ensures modules == if data.Some? then data.value else []
      ensures selectedModule == if data.Some? && |data.value| > 0 then data.value[0].id else old(selectedModule)
      ensures !loading
      ensures sections == old(sections) && selectedSection == old(selectedSection) && files == old(files)
      ensures uploading == old(uploading) && fileTitle == old(fileTitle)
    {
      modules := if data.Some? then data.value else [];
      if data.Some? && |data.value| > 0 {
        selectedModule := data.value[0].id;
      }
      loading := false;
    }

    /** The effect run when the selected module changes: fetch its sections,
        or with no module clear the sections and the selected section. */
    method OnModuleChanged() returns (request: Option<Request>)
      modifies this
      ensures old(selectedModule) != "" ==> request == Some(FetchSections(old(selectedModule))) && sections == old(sections) && selectedSection == old(selectedSection)
      ensures old(selectedModule) == "" ==> request == None && sections == [] && selectedSection == ""
      ensures modules == old(modules) && selectedModule == old(selectedModule) && files == old(files)
      ensures loading == old(loading) && uploading == old(uploading) && fileTitle == old(fileTitle)
    {
      if selectedModule != "" {
        request := Some(FetchSections(selectedModule));
      } else {
        request := None;
        sections := [];
        selectedSection := "";
      }
    }

    /** `fetchSections`: the list, and its first section selected when there
        is one; an empty list keeps the previous selection. */
    method OnSectionsFetched(data: Option<seq<StoredSection>>)
      modifies this
      ensures sections == if data.Some? then data.value else []
      ensures selectedSection == if data.Some? && |data.value| > 0 then data.value[0].id else old(selectedSection)
      ensures modules == old(modules) && selectedModule == old(selectedModule) && files == old(files)
      ensures loading == old(loading) && uploading == old(uploading) && fileTitle == old(fileTitle)
    {
      sections := if data.Some? then data.value else [];
      if data.Some? && |data.value| > 0 {
        selectedSection := data.value[0].id;
      }
    }

    /** Whether the selected section is one of the listed sections (or none is selected). */
    predicate SelectionListed()
      reads this
    {
      selectedSection == "" || exists k :: 0 <= k < |sections| && sections[k].id == selectedSection
    }

    /** `fetchSections` as it is meant to behave: an empty list also clears
        the selection, so the selection always names a listed section. */
    method OnSectionsFetchedClearing(data: Option<seq<StoredSection>>)
      modifies this
      ensures sections == if data.Some? then data.value else []
      ensures selectedSection == if |sections| > 0 then sections[0].id else ""
      ensures SelectionListed()
      ensures modules == old(modules) && selectedModule == old(selectedModule) && files == old(files)
      ensures loading == old(loading) && uploading == old(uploading) && fileTitle == old(fileTitle)
    {
      sections := if data.Some? then data.value else [];
      if |sections| > 0 {
        selectedSection := sections[0].id;
      } else {
        selectedSection := "";
      }
    }

    /** The effect run when the selected section changes. */
    method OnSectionChanged() returns (request: Option<Request>)
      modifies this
      ensures old(selectedSection) != "" ==> request == Some(FetchFiles(old(selectedSection))) && files == old(files)
      ensures old(selectedSection) == "" ==> request == None && files == []
      ensures modules == old(modules) && selectedModule == old(selectedModule)
      ensures sections == old(sections) && selectedSection == old(selectedSection)
      ensures loading == old(loading) && uploading == old(uploading) && fileTitle == old(fileTitle)
    {
      if selectedSection != "" {
        request := Some(FetchFiles(selectedSection));
      } else {
        request := None;
        files := [];
      }
    }

    /** `fetchFiles`: the list, empty when none came back. */
    method OnFilesFetched(data: Option<seq<ListedFile>>)
      modifies this`files
      ensures files == if data.Some? then data.value else []
    {
      files := if data.Some? then data.value else [];
    }

    /** `handleFileUpload`. `upload` and `insert` are the outcomes of the
        storage upload and of the row insert, each consulted only when that
        call is made. */
    method HandleFileUpload(file: Option<Picked>, randomName: string, upload: Status, publicUrl: string, insert: Status)
      returns (requests: seq<Request>, notice: Option<Notice>)
      modifies this`uploading, this`fileTitle
      ensures UploadGuarded(file, selectedSection, old(fileTitle)) ==>
        requests == [] && notice == None && uploading == old(uploading) && fileTitle == old(fileTitle)
      ensures !UploadGuarded(file, selectedSection, old(fileTitle)) ==>
        var sent := UploadRequest(randomName, file.value.name);
        var row := RecordedRow(selectedSection, old(fileTitle), publicUrl, file.value.name);
        && !uploading
        && (upload.Failed? ==>
              requests == [sent] && notice == Some(UploadFailed(upload.message)) && fileTitle == old(fileTitle))
        && (upload.Done? && insert.Failed? ==>
              requests == [sent, InsertFile(row)] && notice == Some(UploadFailed(insert.message)) && fileTitle == old(fileTitle))
        && (upload.Done? && insert.Done? ==>
              requests == [sent, InsertFile(row), FetchFiles(selectedSection)] && notice == Some(UploadSucceeded) && fileTitle == "")
    {
      if file.None? || selectedSection == "" || fileTitle == "" {
        return [], None;
      }
      uploading := true;
      var sent := UploadRequest(randomName, file.value.name);
      if upload.Failed? {
        requests := [sent];
        notice := Some(UploadFailed(upload.message));
      } else {
        var row := RecordedRow(selectedSection, fileTitle, publicUrl, file.value.name);
        if insert.Failed? {
          requests := [sent, InsertFile(row)];
          notice := Some(UploadFailed(insert.message));
        } else {
          fileTitle := "";
          requests := [sent, InsertFile(row), FetchFiles(selectedSection)];
          notice := Some(UploadSucceeded);
        }
      }
      uploading := false;
    }

    /** `handleDelete`. `confirmed` is the answer to the confirmation dialog;
        the outcome of the object removal is only logged, so it is not an input. */
    method HandleDelete(file: ListedFile, confirmed: bool, delete: Status)
      returns (requests: seq<Request>, notice: Option<Notice>)
      ensures !confirmed ==> requests == [] && notice == None
      ensures confirmed ==>
        var removal := match StoragePathOf(file.fileUrl)
          case Some(p) => [RemoveObject(p)]
          case None => [];
        && (delete.Done? ==> requests == removal + [DeleteFile(file.id), FetchFiles(selectedSection)] && notice == Some(DeleteSucceeded))
        && (delete.Failed? ==> requests == removal + [DeleteFile(file.id)] && notice == Some(DeleteFailed))
    {
      if !confirmed {
        return [], None;
      }
      requests := [];
      var path := StoragePathOf(file.fileUrl);
      if path.Some? {
        requests := requests + [RemoveObject(path.value)];
      }
      requests := requests + [DeleteFile(file.id)];
      if delete.Failed? {
        notice := Some(DeleteFailed);
      } else {
        requests := requests + [FetchFiles(selectedSection)];
        notice := Some(DeleteSucceeded);
      }
    }
  }

  /** The code as written: after switching to another module, whose sections
      are fetched and come back empty, the previous module's section stays
      selected although it is not listed, and an upload then records the
      file under that section. */
  method StaleSectionUpload(page: FilesPage, s: StoredSection, other: string, file: Picked, randomName: string, url: string)
    returns (requests: seq<Request>)
    requires s.id != "" && other != "" && page.fileTitle != ""
    modifies page
    ensures !page.SelectionListed()
    ensures |requests| >= 2 && requests[1].InsertFile? && requests[1].row.sectionId == s.id
  {
    page.OnSectionsFetched(Some([s]));
    page.selectedModule := other;
    var fetch := page.OnModuleChanged();
    assert fetch == Some(FetchSections(other));
    page.OnSectionsFetched(Some([]));
    assert page.selectedSection == s.id && page.sections == [];
    var title := page.fileTitle;
    assert !UploadGuarded(Some(file), s.id, title);
    var notice;
    requests, notice := page.HandleFileUpload(Some(file), randomName, Done, url, Done);
    assert requests[1] == InsertFile(RecordedRow(s.id, title, url, file.name));
  }

  /** The same steps with the clearing fetch: the upload is refused, since
      no section is selected. */
  method SwitchToEmptyModule(page: FilesPage, s: StoredSection, other: string, file: Picked, randomName: string, url: string)
    returns (requests: seq<Request>)
    requires s.id != "" && other != "" && page.fileTitle != ""
    modifies page
    ensures page.SelectionListed()
    ensures requests == []
  {
    page.OnSectionsFetchedClearing(Some([s]));
    page.selectedModule := other;
    var fetch := page.OnModuleChanged();
    assert fetch == Some(FetchSections(other));
    page.OnSectionsFetchedClearing(Some([]));
    var notice;
    requests, notice := page.HandleFileUpload(Some(file), randomName, Done, url, Done);
  }
}
