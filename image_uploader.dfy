/** The photo intake component (components/ImageUploader.tsx): the base64
    body taken out of the data URL a file reader produces, the preview data
    URL rebuilt from a stored photo, and the drag-highlight flag. A data URL
    has the form `data:[<mediatype>][;base64],<data>` (RFC 2397, section 3).
    The file reader itself is not modelled: what it produces for a file is
    part of the File value. */
module ImageUploader {
  import opened Types

  // ---------------------------------------------------------------------------
  // String splitting, as JavaScript's String.prototype.split with a one-character separator
  // ---------------------------------------------------------------------------

  /** The pieces of `s` between occurrences of `sep`, in order; there is
      always at least one piece, and "" splits into [""]. */
  function Split(s: string, sep: char): (pieces: seq<string>)
    ensures |pieces| >= 1
  {
    if s == [] then [""]
    else
      var rest := Split(s[1..], sep);
      if s[0] == sep then [""] + rest
      else [[s[0]] + rest[0]] + rest[1..]
  }

  /** The pieces glued back together with `sep` between consecutive pieces. */
  function Join(pieces: seq<string>, sep: char): string
    requires |pieces| >= 1
  {
    if |pieces| == 1 then pieces[0] else pieces[0] + [sep] + Join(pieces[1..], sep)
  }

  /** Splitting loses nothing: joining the pieces gives the string back. */
  lemma {:induction false} SplitJoin(s: string, sep: char)
    ensures Join(Split(s, sep), sep) == s
  {
    if s != [] {
      var rest := Split(s[1..], sep);
      SplitJoin(s[1..], sep);
      var pieces := Split(s, sep);
      if s[0] == sep {
        assert pieces == [""] + rest;
        assert pieces[1..] == rest;
        assert Join(pieces, sep) == "" + [sep] + Join(rest, sep);
      } else {
        assert pieces == [[s[0]] + rest[0]] + rest[1..];
        if |rest| == 1 {
          assert Join(pieces, sep) == [s[0]] + rest[0];
        } else {
          assert pieces[1..] == rest[1..];
          assert Join(rest, sep) == rest[0] + [sep] + Join(rest[1..], sep);
          assert Join(pieces, sep) == ([s[0]] + rest[0]) + [sep] + Join(rest[1..], sep);
        }
      }
      assert s == [s[0]] + s[1..];
    }
  }

  /** No piece contains the separator. */
  lemma {:induction false} SplitPiecesFree(s: string, sep: char)
    ensures forall i :: 0 <= i < |Split(s, sep)| ==> sep !in Split(s, sep)[i]
  {
    if s != [] {
      var rest := Split(s[1..], sep);
      SplitPiecesFree(s[1..], sep);
      var pieces := Split(s, sep);
      if s[0] == sep {
        assert forall i :: 1 <= i < |pieces| ==> pieces[i] == rest[i - 1];
      } else {
        assert forall i :: 1 <= i < |pieces| ==> pieces[i] == rest[i];
      }
    }
  }

  /** A prefix without the separator becomes the start of the first piece. */
  lemma {:induction false} SplitPrefix(a: string, r: string, sep: char)
    requires sep !in a
    ensures Split(a + r, sep) == [a + Split(r, sep)[0]] + Split(r, sep)[1..]
  {
    var tail := Split(r, sep);
    if a == [] {
      assert a + r == r && a + tail[0] == tail[0];
      assert tail == [tail[0]] + tail[1..];
    } else {
      assert (a + r)[0] == a[0] != sep;
      assert (a + r)[1..] == a[1..] + r;
      SplitPrefix(a[1..], r, sep);
      var rest := Split(a[1..] + r, sep);
      assert rest[0] == a[1..] + tail[0] && rest[1..] == tail[1..];
      assert [a[0]] + (a[1..] + tail[0]) == a + tail[0];
    }
  }

  /** A leading separator ends an empty first piece. */
  lemma SplitLeading(r: string, sep: char)
    ensures Split([sep] + r, sep) == [""] + Split(r, sep)
  {
    assert ([sep] + r)[1..] == r;
  }

  // ---------------------------------------------------------------------------
  // Data URLs
  // ---------------------------------------------------------------------------

  /** `dataUrl.split(',')[1]`: the second piece, or undefined when there is no comma. */
  function Base64Of(dataUrl: string): (body: Option<string>)
    ensures body.Some? ==> ',' !in body.value && |body.value| < |dataUrl|
  {
    var pieces := Split(dataUrl, ',');
    SplitPiecesFree(dataUrl, ',');
    SplitJoin(dataUrl, ',');
    assert |pieces| >= 2 ==> dataUrl == pieces[0] + [','] + Join(pieces[1..], ',') && |pieces[1]| <= |Join(pieces[1..], ',')|;
    if |pieces| >= 2 then Some(pieces[1]) else None
  }

  /** The body taken from a data URL is the text between its first comma
      and the next comma or its end; there is none exactly when the URL has
      no comma. */
  lemma Base64OfSegment(dataUrl: string)
    ensures Base64Of(dataUrl).None? <==> ',' !in dataUrl
    ensures Base64Of(dataUrl).Some? ==>
      exists a, r :: dataUrl == a + [','] + Base64Of(dataUrl).value + r &&
        ',' !in a && ',' !in Base64Of(dataUrl).value && (r == [] || r[0] == ',')
  {
    var pieces := Split(dataUrl, ',');
    SplitJoin(dataUrl, ',');
    SplitPiecesFree(dataUrl, ',');
    if |pieces| == 1 {
      assert dataUrl == pieces[0];
    } else {
      var a, b := pieces[0], pieces[1];
      assert ',' !in a && ',' !in b by {
        assert pieces[0] == a && pieces[1] == b;
      }
      var r: string := if |pieces| == 2 then [] else [','] + Join(pieces[2..], ',');
      assert Join(pieces[1..], ',') == b + r by {
        assert pieces[1..][0] == b;
        if |pieces| > 2 {
          assert pieces[1..][1..] == pieces[2..];
        }
      }
      assert dataUrl == a + [','] + b + r;
      assert r == [] || r[0] == ',';
      assert ',' in dataUrl by {
        assert dataUrl[|a|] == ',';
      }
    }
  }

  /** Conversely, the text after the first comma, up to the next comma or the
      end, is the body taken. */
  lemma SegmentIsBase64(a: string, b: string, r: string)
    requires ',' !in a && ',' !in b && (r == [] || r[0] == ',')
    ensures Base64Of(a + [','] + b + r) == Some(b)
  {
    assert a + [','] + b + r == a + ([','] + (b + r));
    SplitPrefix(a, [','] + (b + r), ',');
    SplitLeading(b + r, ',');
    SplitPrefix(b, r, ',');
    var tail := Split(r, ',');
    if r != [] {
      assert r == [','] + r[1..];
      SplitLeading(r[1..], ',');
    }
    assert tail[0] == "";
    var z := Split([','] + (b + r), ',');
    assert z[0] == "" && z[1..] == Split(b + r, ',');
    assert Split(b + r, ',')[0] == b;
    var x := Split(a + ([','] + (b + r)), ',');
    assert a + z[0] == a;
    assert x == [a] + z[1..];
    assert x[1] == b;
  }

  /** The `src` of the preview image: a base64 data URL rebuilt from a stored photo. */
  function PreviewUrl(img: ImageFile): (url: string)
    ensures |url| == |img.mimeType| + |img.base64| + 13
    ensures url[..5] == "data:" && url[|url| - |img.base64|..] == img.base64
  {
    "data:" + img.mimeType + ";base64," + img.base64
  }

  /** Taking the body out of a preview URL gives the stored body back, when
      neither the media type nor the body contains a comma. */
  lemma PreviewRoundTrip(img: ImageFile)
    requires ',' !in img.mimeType && ',' !in img.base64
    ensures Base64Of(PreviewUrl(img)) == Some(img.base64)
  {
    var a := "data:" + img.mimeType + ";base64";
    assert ',' !in "data:" && ',' !in ";base64";
    assert ',' !in a;
    assert PreviewUrl(img) == a + [','] + img.base64 + [];
    SegmentIsBase64(a, img.base64, []);
  }

  // ---------------------------------------------------------------------------
  // Reading a file
  // ---------------------------------------------------------------------------

  /** What the file reader settles with: the file as a data URL, or an error. */
  datatype ReadResult = Loaded(dataUrl: string) | ReadError

  /** A chosen or dropped file: its declared media type and what reading it yields. */
  datatype File = File(mimeType: string, read: ReadResult)

  /** What processFile reports to onImageUpload: nothing at all, or a photo or null. */
  datatype Upload = NoCallback | Report(image: Option<ImageFile>)

  /** processFile: a loaded data URL with a non-empty body reports the photo
      with the file's declared type; an empty or missing body reports
      nothing; a read error reports null. */
  function ProcessFile(file: File): (u: Upload)
    ensures file.read.ReadError? ==> u == Report(None)
    ensures file.read.Loaded? ==> (u.NoCallback? <==> !Truthy(Base64Of(file.read.dataUrl)))
    ensures u.Report? && u.image.Some? ==>
      u.image.value.mimeType == file.mimeType && u.image.value.base64 != "" &&
      ',' !in u.image.value.base64 && file.read.Loaded? &&
      Base64Of(file.read.dataUrl) == Some(u.image.value.base64)
    ensures file.read.Loaded? && u.Report? ==> u.image.Some?
  {
    match file.read
    case ReadError => Report(None)
    case Loaded(dataUrl) =>
      var base64 := Base64Of(dataUrl);
      if Truthy(base64) then Report(Some(ImageFile(base64.value, file.mimeType)))
      else NoCallback
  }

  /** The photo slot after a report. The page passes the slot's setter as
      the callback, so every report is stored, and the slot is unchanged
      when nothing is reported. */
  function Deliver(current: Option<ImageFile>, u: Upload): (slot: Option<ImageFile>)
    ensures u.Report? ==> slot == u.image
    ensures u.NoCallback? ==> slot == current
  {
    match u
    case NoCallback => current
    case Report(image) => image
  }

  /** Reading a data URL of the form the preview uses stores exactly that
      photo, when its body is non-empty and neither the body nor the media
      type contains a comma. */
  lemma UploadPreviewRoundTrip(img: ImageFile)
    requires ',' !in img.mimeType && ',' !in img.base64 && img.base64 != ""
    ensures ProcessFile(File(img.mimeType, Loaded(PreviewUrl(img)))) == Report(Some(img))
  {
    PreviewRoundTrip(img);
  }

  /** Whatever a successful upload stores, its preview URL yields the same
      body, when the file's declared media type contains no comma. */
  lemma StoredPreviewRoundTrip(file: File, current: Option<ImageFile>)
    requires ',' !in file.mimeType
    requires ProcessFile(file).Report? && ProcessFile(file).image.Some?
    ensures var img := Deliver(current, ProcessFile(file)).value;
      Base64Of(PreviewUrl(img)) == Some(img.base64) && img.mimeType == file.mimeType
  {
    PreviewRoundTrip(ProcessFile(file).image.value);
  }

  /** An upload that reports nothing leaves the slot as it was; a read error clears it. */
  lemma EmptyBodyKeepsSlot(file: File, current: Option<ImageFile>)
    requires file.read.Loaded? && !Truthy(Base64Of(file.read.dataUrl))
    ensures Deliver(current, ProcessFile(file)) == current
    ensures Deliver(current, ProcessFile(File(file.mimeType, ReadError))) == None
  {
  }

  /** Only the first file of a selection or a drop is processed. */
  function FirstFile(files: seq<File>): (u: Upload)
    ensures files == [] ==> u == NoCallback
    ensures files != [] ==> u == ProcessFile(files[0])
  {
    if files == [] then NoCallback else ProcessFile(files[0])
  }

  /** Files after the first one in a selection or a drop are ignored. */
  lemma LaterFilesIgnored(f: File, rest: seq<File>)
    ensures FirstFile([f] + rest) == FirstFile([f])
    ensures FirstFile([f] + rest) == ProcessFile(f)
  {
  }

  // ---------------------------------------------------------------------------
  // The drop zone
  // ---------------------------------------------------------------------------

  /** The uploader's own state: whether a drag is over the drop zone. */
  class DropZone {
    var isDragging: bool

    constructor ()
      ensures !isDragging
    {
      isDragging := false;
    }

    method DragEnter()
      modifies this
      ensures isDragging
    {
      isDragging := true;
    }

    method DragLeave()
      modifies this
      ensures !isDragging
    {
      isDragging := false;
    }

    /** A drop ends the drag and processes the first dropped file. */
    method Drop(files: seq<File>) returns (u: Upload)
      modifies this
      ensures !isDragging
      ensures u == FirstFile(files)
    {
      isDragging := false;
      u := FirstFile(files);
    }

    /** Choosing files in the picker processes the first one and leaves the
        drag flag alone. */
    method FileChange(files: seq<File>) returns (u: Upload)
      ensures u == FirstFile(files)
    {
      u := FirstFile(files);
    }
  }
}
