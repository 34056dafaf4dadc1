/**
 * The upload zone (FileUploadZone.jsx): a highlight while something is dragged over
 * it, the choice of the dropped file, and the file picker.
 */
module FileUploadZone {
  import opened Wrappers
  import opened Seqs
  import opened Text

  /** The part of a browser `File` the zone looks at. */
  datatype FileInfo = FileInfo(name: string, mimeType: string)

  /** `file.type === 'application/pdf' || file.type.startsWith('image/')`. */
  predicate IsAccepted(f: FileInfo)
  {
    f.mimeType == "application/pdf" || StartsWith(f.mimeType, "image/")
  }

  /** `Array.from(files).find(...)`: the first accepted file of a drop, if any. */
  function DroppedFileChoice(files: seq<FileInfo>): (r: Option<FileInfo>)
    ensures r.None? <==> forall j :: 0 <= j < |files| ==> !IsAccepted(files[j])
    ensures r.Some? ==> exists k :: 0 <= k < |files| && files[k] == r.value && IsAccepted(files[k]) &&
                                    forall j :: 0 <= j < k ==> !IsAccepted(files[j])
  {
    FindFirst(files, IsAccepted)
  }

  /** `e.target.files?.[0]`: the picker passes its first file without looking at its type. */
  function FileInputChoice(files: seq<FileInfo>): Option<FileInfo>
  {
    if files == [] then None else Some(files[0])
  }

  /**
   * The picker and a drop of the same files: the picker passes a file whenever there is
   * one, so whenever a drop would; the two pick the same file when the first one is
   * accepted; and the picker's file, unlike the drop's, need not be accepted.
   */
  lemma PickerAndDrop(files: seq<FileInfo>)
    ensures FileInputChoice(files).None? <==> files == []
    ensures DroppedFileChoice(files).Some? ==> FileInputChoice(files).Some?
    ensures files != [] && IsAccepted(files[0]) ==> FileInputChoice(files) == DroppedFileChoice(files)
    ensures files != [] && !IsAccepted(files[0]) ==> FileInputChoice(files) != DroppedFileChoice(files)
  {
  }

  /** The accepted types: PDF and every `image/` type; a type that only starts like one is refused. */
  lemma AcceptedTypes(name: string)
    ensures IsAccepted(FileInfo(name, "application/pdf"))
    ensures IsAccepted(FileInfo(name, "image/png")) && IsAccepted(FileInfo(name, "image/"))
    ensures !IsAccepted(FileInfo(name, "image")) && !IsAccepted(FileInfo(name, "application/pdfx"))
    ensures !IsAccepted(FileInfo(name, "text/plain"))
  {
    assert "image/png"[..6] == "image/";
    assert "image/"[..6] == "image/";
    assert "text/plain"[0] != "image/"[0];
    assert "application/pdfx"[0] != "image/"[0];
  }

  /**
   * A drop of only unaccepted files selects nothing, and the first accepted file is
   * selected wherever it lies; the picker passes on a plain-text file that a drop refuses.
   */
  lemma DropExamples(pdf: FileInfo, text: FileInfo)
    requires pdf.mimeType == "application/pdf" && text.mimeType == "text/plain"
    ensures DroppedFileChoice([text]) == None && FileInputChoice([text]) == Some(text)
    ensures DroppedFileChoice([text, pdf]) == Some(pdf)
    ensures DroppedFileChoice([pdf, text]) == Some(pdf)
  {
    assert !StartsWith(text.mimeType, "image/") by {
      assert text.mimeType[0] != "image/"[0];
    }
    assert !IsAccepted([text][0]);
    assert !IsAccepted([text, pdf][0]) && IsAccepted([text, pdf][1]);
    assert IsAccepted([pdf, text][0]);
  }

  /** The drag events the zone listens to. */
  datatype DragEvent = DragEnter | DragOver | DragLeave | OtherDragEvent

  class UploadZone {
    var dragActive: bool

    constructor ()
      ensures !dragActive
    {
      dragActive := false;
    }

    /** `handleDrag`: enter and over highlight the zone, leave clears it, anything else keeps it. */
    method HandleDrag(e: DragEvent)
      modifies this
      ensures dragActive == match e
                            case DragEnter => true
                            case DragOver => true
                            case DragLeave => false
                            case OtherDragEvent => old(dragActive)
    {
      if e == DragEnter || e == DragOver {
        dragActive := true;
      } else if e == DragLeave {
        dragActive := false;
      }
    }

    /** `handleDrop`: clear the highlight; the chosen file, if any, is passed to `onFileSelect` once. */
    method HandleDrop(files: seq<FileInfo>) returns (selected: Option<FileInfo>)
      modifies this
      ensures !dragActive
      ensures selected == DroppedFileChoice(files)
    {
      dragActive := false;
      selected := FindFirst(files, IsAccepted);
    }
  }
}
