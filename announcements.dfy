/** The admin announcement composer (src/pages/admin/Announcements.jsx): a
    text or voice announcement for the selected level, with an optional
    image, each attachment uploaded under `announcements/` before the row
    is inserted. `Date.now()` at each upload is a parameter, and so are the
    public URLs the storage client computes and the preview URLs the
    browser creates for picked files. */
module Announcements {
  import opened Remote
  import opened Content
  import opened Text

  const StorageDir := "announcements/"
  const AudioPrefix := "ann-"
  const AudioSuffix := ".webm"
  const ImagePrefix := "img-"
  const AnnouncementTitle := "Annonce"
  /** The `content` of a voice announcement. */
  const VoiceNoteContent := "Note vocale"
  const AddFallbackMessage := "Une erreur est survenue lors de l'ajout"

  datatype Mode = TextMode | AudioMode

  /** A picked or recorded file: the name and MIME type are all that is used. */
  datatype Blob = Blob(name: string, mimeType: string)

  /** The handler's early return: text mode with no text, or audio mode
      with no audio. */
  predicate SubmitBlocked(mode: Mode, content: string, audioBlob: Option<Blob>) {
    (mode == TextMode && content == "") || (mode == AudioMode && audioBlob.None?)
  }

  /** The submit button's `disabled` expression: disabled while uploading
      and in exactly the cases the handler would return early. */
  function SubmitDisabled(isUploading: bool, mode: Mode, content: string, audioBlob: Option<Blob>): (d: bool)
    ensures d <==> isUploading || SubmitBlocked(mode, content, audioBlob)
  {
    isUploading || (if mode == TextMode then content == "" else audioBlob.None?)
  }

  /** ``announcements/ann-${now}.webm``. */
  function AudioPath(now: nat): (path: string)
    ensures StartsWith(path, StorageDir + AudioPrefix)
    ensures EndsWith(path, AudioSuffix)
  {
    var path := StorageDir + AudioPrefix + NatToString(now) + AudioSuffix;
    assert path[..|StorageDir + AudioPrefix|] == StorageDir + AudioPrefix;
    assert path[|path| - |AudioSuffix|..] == AudioSuffix;
    path
  }

  /** ``announcements/img-${now}-${name}``. */
  function ImagePath(now: nat, name: string): (path: string)
    ensures StartsWith(path, StorageDir + ImagePrefix)
    ensures EndsWith(path, "-" + name)
  {
    var path := StorageDir + ImagePrefix + NatToString(now) + "-" + name;
    assert path[..|StorageDir + ImagePrefix|] == StorageDir + ImagePrefix;
    assert path[|path| - |"-" + name|..] == "-" + name;
    path
  }

  /** Both kinds of object land in the announcements folder. */
  lemma PathsInFolder(t: nat, u: nat, name: string)
    ensures StartsWith(AudioPath(t), StorageDir) && StartsWith(ImagePath(u, name), StorageDir)
  {
    assert AudioPath(t)[..|StorageDir|] == (StorageDir + AudioPrefix)[..|StorageDir|];
    assert ImagePath(u, name)[..|StorageDir|] == (StorageDir + ImagePrefix)[..|StorageDir|];
  }

  /** A voice note and an image never share a storage path, whatever the times. */
  lemma AudioAndImageApart(t: nat, u: nat, name: string)
    ensures AudioPath(t) != ImagePath(u, name)
  {
    var k := |StorageDir| + 1;
    assert AudioPath(t)[k] == (StorageDir + AudioPrefix)[k] == 'n';
    assert ImagePath(u, name)[k] == (StorageDir + ImagePrefix)[k] == 'm';
  }

  /** Voice notes recorded at different times get different paths. */
  lemma AudioPathsDistinct(t: nat, u: nat)
    requires t != u
    ensures AudioPath(t) != AudioPath(u)
  {
    var head := StorageDir + AudioPrefix;
    var a, b := NatToString(t), NatToString(u);
    if AudioPath(t) == AudioPath(u) {
      var p := AudioPath(t);
      assert p == head + a + AudioSuffix;
      assert p == head + b + AudioSuffix;
      assert |a| == |b|;
      assert a == p[|head|..|head| + |a|];
      assert b == p[|head|..|head| + |b|];
      DecimalRoundTrip(t);
      DecimalRoundTrip(u);
      assert false;
    }
  }

  /** What the page asks of the hosted service. */
  datatype Request =
    | UploadObject(path: string)
    | InsertAnnouncement(row: AnnouncementRow)
    | FetchAnnouncements(levelId: string)

  /** The alerts the composer shows. */
  datatype Notice = AddFailed(message: string) | PickAudioRejected | PickImageRejected

  /** What the composer holds before it is sent. */
  datatype Draft = Draft(content: string, audioBlob: Option<Blob>, audioPreview: string,
                         imageBlob: Option<Blob>, imagePreview: string)

  const EmptyDraft := Draft("", None, "", None, "")

  class Composer {
    var selectedLevel: string
    var mode: Mode
    var content: string
    var audioBlob: Option<Blob>
    var audioPreview: string
    var imageBlob: Option<Blob>
    var imagePreview: string
    var isUploading: bool

    function DraftOf(): Draft
      reads this
    {
      Draft(content, audioBlob, audioPreview, imageBlob, imagePreview)
    }

    constructor ()
      ensures selectedLevel == "" && mode == TextMode && DraftOf() == EmptyDraft && !isUploading
    {
      selectedLevel, mode := "", TextMode;
      content, audioBlob, audioPreview := "", None, "";
      imageBlob, imagePreview := None, "";
      isUploading := false;
    }

    /** The two mode buttons. */
    method SetMode(m: Mode)
      modifies this`mode
      ensures mode == m
    {
      mode := m;
    }

    /** `handleFileSelect`: only a file whose MIME type starts with `audio/`
        becomes the audio draft; anything else is refused and changes nothing. */
    method HandleFileSelect(file: Option<Blob>, previewUrl: string) returns (notice: Option<Notice>)
      modifies this`audioBlob, this`audioPreview
      ensures file.Some? && StartsWith(file.value.mimeType, "audio/") ==>
        audioBlob == file && audioPreview == previewUrl && notice == None
      ensures !(file.Some? && StartsWith(file.value.mimeType, "audio/")) ==>
        audioBlob == old(audioBlob) && audioPreview == old(audioPreview) && notice == Some(PickAudioRejected)
    {
      if file.Some? && StartsWith(file.value.mimeType, "audio/") {
        audioBlob := file;
        audioPreview := previewUrl;
        notice := None;
      } else {
        notice := Some(PickAudioRejected);
      }
    }

    /** `handleImageSelect`: the same with `image/`. */
    method HandleImageSelect(file: Option<Blob>, previewUrl: string) returns (notice: Option<Notice>)
      modifies this`imageBlob, this`imagePreview
      ensures file.Some? && StartsWith(file.value.mimeType, "image/") ==>
        imageBlob == file && imagePreview == previewUrl && notice == None
      ensures !(file.Some? && StartsWith(file.value.mimeType, "image/")) ==>
        imageBlob == old(imageBlob) && imagePreview == old(imagePreview) && notice == Some(PickImageRejected)
    {
      if file.Some? && StartsWith(file.value.mimeType, "image/") {
        imageBlob := file;
        imagePreview := previewUrl;
        notice := None;
      } else {
        notice := Some(PickImageRejected);
      }
    }

    /** The remove button under the audio preview. */
    method ClearAudio()
      modifies this`audioBlob, this`audioPreview
      ensures audioBlob == None && audioPreview == ""
    {
      audioBlob, audioPreview := None, "";
    }

    /** The remove button on the image preview. */
    method ClearImage()
      modifies this`imageBlob, this`imagePreview
      ensures imageBlob == None && imagePreview == ""
    {
      imageBlob, imagePreview := None, "";
    }

    /** `handleAdd`. The voice note is uploaded only in audio mode, the
        image whenever one is attached; each upload's URL goes into the row
        only once that upload succeeded, and any failure stops before the
        insert. A successful insert empties the draft and re-fetches the
        list; a failure keeps the draft. `isUploading` is off afterwards. */
    method HandleAdd(audioTime: nat, audioUpload: Status, audioUrl: string,
                     imageTime: nat, imageUpload: Status, imageUrl: string, insert: Status)
      returns (requests: seq<Request>, notice: Option<Notice>)
      modifies this`content, this`audioBlob, this`audioPreview, this`imageBlob, this`imagePreview, this`isUploading
      ensures SubmitBlocked(mode, old(content), old(audioBlob)) ==>
        requests == [] && notice == None && DraftOf() == old(DraftOf()) && isUploading == old(isUploading)
      ensures !SubmitBlocked(mode, old(content), old(audioBlob)) ==>
        var withAudio := mode == AudioMode;
        var audioSent := if withAudio then [UploadObject(AudioPath(audioTime))] else [];
        var imageSent := if old(imageBlob).Some? then [UploadObject(ImagePath(imageTime, old(imageBlob).value.name))] else [];
        var row := AnnouncementRow(selectedLevel, AnnouncementTitle,
          if mode == TextMode then old(content) else VoiceNoteContent,
          if withAudio then Some(audioUrl) else None,
          if old(imageBlob).Some? then Some(imageUrl) else None);
        && !isUploading
        && (withAudio && audioUpload.Failed? ==>
              requests == audioSent && notice == Some(AddFailed(OrElse(audioUpload.message, AddFallbackMessage)))
              && DraftOf() == old(DraftOf()))
        && (!(withAudio && audioUpload.Failed?) && old(imageBlob).Some? && imageUpload.Failed? ==>
              requests == audioSent + imageSent && notice == Some(AddFailed(OrElse(imageUpload.message, AddFallbackMessage)))
              && DraftOf() == old(DraftOf()))
        && (!(withAudio && audioUpload.Failed?) && !(old(imageBlob).Some? && imageUpload.Failed?) ==>
              && (insert.Failed? ==>
                    requests == audioSent + imageSent + [InsertAnnouncement(row)]
                    && notice == Some(AddFailed(OrElse(insert.message, AddFallbackMessage)))
                    && DraftOf() == old(DraftOf()))
              && (insert.Done? ==>
                    requests == audioSent + imageSent + [InsertAnnouncement(row), FetchAnnouncements(selectedLevel)]
                    && notice == None && DraftOf() == EmptyDraft))
    {
      if mode == TextMode && content == "" {
        return [], None;
      }
      if mode == AudioMode && audioBlob.None? {
        return [], None;
      }
      isUploading := true;
      requests := [];
      notice := None;
      var finalAudioUrl: Option<string> := None;
      var finalImageUrl: Option<string> := None;
      if mode == AudioMode && audioBlob.Some? {
        requests := requests + [UploadObject(AudioPath(audioTime))];
        if audioUpload.Failed? {
          notice := Some(AddFailed(if audioUpload.message != "" then audioUpload.message else AddFallbackMessage));
          isUploading := false;
          return;
        }
        finalAudioUrl := Some(audioUrl);
      }
      if imageBlob.Some? {
        requests := requests + [UploadObject(ImagePath(imageTime, imageBlob.value.name))];
        if imageUpload.Failed? {
          notice := Some(AddFailed(if imageUpload.message != "" then imageUpload.message else AddFallbackMessage));
          isUploading := false;
          return;
        }
        finalImageUrl := Some(imageUrl);
      }
      var row := AnnouncementRow(selectedLevel, AnnouncementTitle,
        if mode == TextMode then content else VoiceNoteContent, finalAudioUrl, finalImageUrl);
      requests := requests + [InsertAnnouncement(row)];
      if insert.Failed? {
        notice := Some(AddFailed(if insert.message != "" then insert.message else AddFallbackMessage));
      } else {
        content := "";
        audioBlob, audioPreview := None, "";
        imageBlob, imagePreview := None, "";
        requests := requests + [FetchAnnouncements(selectedLevel)];
      }
      isUploading := false;
    }
  }

  /** A client of the composer: a typed announcement with an image goes out
      as one image upload and a row carrying the text and the image URL but
      no audio URL, even when a voice note is still attached from audio mode. */
  method TextWithImage(c: Composer, text: string, image: Blob, t: nat, url: string)
    returns (requests: seq<Request>)
    requires text != ""
    modifies c
    ensures requests == [UploadObject(ImagePath(t, image.name)),
      InsertAnnouncement(AnnouncementRow(c.selectedLevel, AnnouncementTitle, text, None, Some(url))),
      FetchAnnouncements(c.selectedLevel)]
    ensures c.DraftOf() == EmptyDraft
  {
    c.SetMode(TextMode);
    c.content := text;
    c.imageBlob := Some(image);
    var notice;
    requests, notice := c.HandleAdd(t, Done, "", t, Done, url, Done);
  }
}
