/** The upload widget of the submit page (app/submit/SubmitCard.tsx): the
    file-type check and the `selectedFile` / `status` / `message` state that
    `handleFiles`, `handleUpload` and `handleCancel` update. A file is its
    name and MIME type; drag-and-drop and the click on the hidden input only
    forward to `handleFiles` and are not modelled separately. */
module SubmitCard {
  import opened Js

  /** The part of a browser `File` the widget looks at. */
  datatype FileInfo = FileInfo(name: string, mimeType: string)

  datatype Status = Idle | Success | Error

  const AllowedTypes: seq<string> := ["application/pdf", "image/png", "image/jpeg"]
  const AllowedExtensions: seq<string> := [".pdf", ".png", ".jpg", ".jpeg"]

  const OnlyAllowedFiles := "Only PDF, PNG, or JPG files are allowed."
  const AddFileFirst := "Please add a file before uploading."
  const UploadedSuffix := " was uploaded successfully."

  /** `[".pdf", ".png", ".jpg", ".jpeg"].some(ext => lowerName.endsWith(ext))` */
  predicate HasAllowedExtension(name: string) {
    exists ext :: ext in AllowedExtensions && EndsWith(ToLower(name), ext)
  }

  /** `allowedTypes.includes(file.type) || hasAllowedExtension` */
  predicate IsAllowed(f: FileInfo) {
    f.mimeType in AllowedTypes || HasAllowedExtension(f.name)
  }

  /** A name whose last characters lower-case to an allowed extension is
      accepted whatever the MIME type says. */
  lemma AllowedExtensionAccepted(name: string, ext: string, mimeType: string)
    requires ext in AllowedExtensions && |ext| <= |name|
    requires forall k :: 0 <= k < |ext| ==> LowerChar(name[|name| - |ext| + k]) == ext[k]
    ensures IsAllowed(FileInfo(name, mimeType))
  {
    var lower := ToLower(name);
    assert lower[|lower| - |ext|..] == ext by {
      forall k | 0 <= k < |ext| ensures lower[|lower| - |ext|..][k] == ext[k] {
        assert lower[|lower| - |ext| + k] == LowerChar(name[|name| - |ext| + k]);
      }
    }
    assert EndsWith(lower, ext);
  }

  /** The extension check ignores case: a name ending in ".PDF" is accepted
      whatever the MIME type says. */
  lemma UpperCaseExtensionAllowed(stem: string, mimeType: string)
    ensures IsAllowed(FileInfo(stem + ".PDF", mimeType))
  {
    var name := stem + ".PDF";
    var lower := ToLower(name);
    assert lower[|lower| - 4..] == ".pdf" by {
      assert name[|name| - 4..] == ".PDF";
      forall k | 0 <= k < 4 ensures lower[|lower| - 4 + k] == ".pdf"[k] {
        assert lower[|lower| - 4 + k] == LowerChar(name[|name| - 4 + k]);
      }
    }
    assert EndsWith(lower, AllowedExtensions[0]);
  }

  /** A file with an allowed MIME type is accepted whatever its name. */
  lemma AllowedTypeAccepted(name: string, mimeType: string)
    requires mimeType in AllowedTypes
    ensures IsAllowed(FileInfo(name, mimeType))
  {
  }

  /** A file whose type is not listed and whose lower-cased name ends in none
      of the extensions is refused. */
  lemma UnknownFileRefused(f: FileInfo)
    requires f.mimeType !in AllowedTypes
    requires forall ext :: ext in AllowedExtensions ==> !EndsWith(ToLower(f.name), ext)
    ensures !IsAllowed(f)
  {
  }

  /** `${selectedFile.name} was uploaded successfully.` */
  function UploadedMessage(name: string): (r: string)
    ensures StartsWith(r, name) && EndsWith(r, UploadedSuffix)
    ensures r[..|name|] == name
  {
    name + UploadedSuffix
  }

  /** The widget's state. `inputValue` is the value of the hidden file input
      that `handleCancel` clears. */
  class Card {
    var selectedFile: Option<FileInfo>
    var message: Option<string>
    var status: Status
    var inputValue: string

    /** The states the three handlers can reach: an idle card shows no
        message, a successful one names the selected file, and an error
        leaves no file selected. */
    ghost predicate Valid()
      reads this
    {
      && (status == Idle ==> message == None)
      && (status == Success ==> selectedFile.Some? && message == Some(UploadedMessage(selectedFile.value.name)))
      && (status == Error ==> selectedFile == None && (message == Some(OnlyAllowedFiles) || message == Some(AddFileFirst)))
    }

    constructor()
      ensures selectedFile == None && message == None && status == Idle && inputValue == ""
      ensures Valid()
    {
      selectedFile := None;
      message := None;
      status := Idle;
      inputValue := "";
    }

    /** `handleFiles`: an absent or empty list changes nothing; otherwise only
        the first file is examined, and it is either selected or refused. */
    method HandleFiles(files: Option<seq<FileInfo>>)
      requires Valid()
      modifies this
      ensures Valid()
      ensures inputValue == old(inputValue)
      ensures files.None? || files.value == []
              ==> selectedFile == old(selectedFile) && message == old(message) && status == old(status)
      ensures files.Some? && files.value != [] && !IsAllowed(files.value[0])
              ==> selectedFile == None && status == Error && message == Some(OnlyAllowedFiles)
      ensures files.Some? && files.value != [] && IsAllowed(files.value[0])
              ==> selectedFile == Some(files.value[0]) && status == Idle && message == None
    {
      if files.None? || |files.value| == 0 {
        return;
      }
      var file := files.value[0];
      if !IsAllowed(file) {
        selectedFile := None;
        status := Error;
        message := Some(OnlyAllowedFiles);
        return;
      }
      selectedFile := Some(file);
      message := None;
      status := Idle;
    }

    /** `handleUpload`: without a file it reports the missing file; with one
        it reports the upload of that file. */
    method HandleUpload()
      requires Valid()
      modifies this
      ensures Valid()
      ensures selectedFile == old(selectedFile) && inputValue == old(inputValue)
      ensures old(selectedFile).None? ==> status == Error && message == Some(AddFileFirst)
      ensures old(selectedFile).Some?
              ==> status == Success && message == Some(UploadedMessage(old(selectedFile).value.name))
    {
      if selectedFile.None? {
        status := Error;
        message := Some(AddFileFirst);
        return;
      }
      status := Success;
      message := Some(UploadedMessage(selectedFile.value.name));
    }

    /** `handleCancel`: back to the initial state, with the input cleared. */
    method HandleCancel()
      modifies this
      ensures selectedFile == None && status == Idle && message == None && inputValue == ""
      ensures Valid()
    {
      selectedFile := None;
      status := Idle;
      message := None;
      inputValue := "";
    }
  }

  /** A refused file is never uploaded: after it, an upload reports the
      missing file. */
  method RefusedFileThenUpload(f: FileInfo) returns (status: Status, message: Option<string>)
    requires !IsAllowed(f)
    ensures status == Error && message == Some(AddFileFirst)
  {
    var card := new Card();
    card.HandleFiles(Some([f]));
    card.HandleUpload();
    status, message := card.status, card.message;
  }

  /** Selecting an allowed file and uploading it reports that file. */
  method SelectThenUpload(f: FileInfo) returns (status: Status, message: Option<string>)
    requires IsAllowed(f)
    ensures status == Success && message == Some(f.name + " was uploaded successfully.")
  {
    var card := new Card();
    card.HandleFiles(Some([f]));
    card.HandleUpload();
    status, message := card.status, card.message;
  }
}
