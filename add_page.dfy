/**
 * The add-story page: form validation, the choice of photo source, the
 * file-size check on a chosen file and the combined description it submits.
 */
module AddPage {
  import opened Wrappers
  import opened Text
  import opened StoryText

  /** A photo file or captured blob, known by its size in bytes. */
  datatype Photo = Photo(size: nat)

  /** The largest accepted file: 5 MB. */
  const MaxPhotoSize: nat := 5 * 1024 * 1024

  const TitleRequiredMessage := "Judul cerita wajib diisi."
  const TitleTooShortMessage := "Judul minimal 2 karakter."
  const DescriptionRequiredMessage := "Deskripsi cerita wajib diisi."
  const DescriptionTooShortMessage := "Deskripsi minimal 5 karakter."
  const InvalidFormMessage := "Mohon periksa input Anda. Pastikan semua field wajib diisi dengan benar."
  const NoPhotoMessage := "Mohon pilih atau ambil foto."
  const FileTooLargeMessage := "Ukuran file terlalu besar. Maksimal 5MB."

  /** The photo type `file` needs a chosen file, `camera` a captured blob; any other type needs nothing. */
  predicate PhotoRequirementMet(photoType: string, file: Option<Photo>, blob: Option<Photo>) {
    (photoType == "file" ==> file.Some?) && (photoType == "camera" ==> blob.Some?)
  }

  /**
   * The submit handler's photo: the blob in camera mode, the file in file
   * mode, and nothing (no submission) otherwise.
   */
  function SelectPhoto(photoType: string, file: Option<Photo>, blob: Option<Photo>): (r: Option<Photo>)
    ensures r.Some? <==> (photoType == "camera" && blob.Some?) || (photoType == "file" && file.Some?)
    ensures r.Some? && photoType == "camera" ==> r == blob
    ensures r.Some? && photoType == "file" ==> r == file
  {
    if photoType == "camera" && blob.Some? then blob
    else if photoType == "file" && file.Some? then file
    else None
  }

  /** A valid form has a photo for the two known types; any other type passes validation yet has none. */
  lemma ValidFormPhoto(photoType: string, file: Option<Photo>, blob: Option<Photo>)
    ensures PhotoRequirementMet(photoType, file, blob) && (photoType == "file" || photoType == "camera") ==>
      SelectPhoto(photoType, file, blob).Some?
    ensures photoType != "file" && photoType != "camera" ==>
      PhotoRequirementMet(photoType, file, blob) && SelectPhoto(photoType, file, blob).None?
  {
  }

  /** What the submit handler sends. */
  datatype Submission = Submission(description: string, photo: Photo)

  class AddPage {
    /** The photo taken with the camera, if any. */
    var capturedBlob: Option<Photo>
    /** The file the photo input currently holds, if any. */
    var chosenFile: Option<Photo>

    constructor()
      ensures capturedBlob == None && chosenFile == None
    {
      capturedBlob := None;
      chosenFile := None;
    }

    /**
     * `_validateForm`: `isValid` starts true and each failed check sets it
     * false; the title and description errors are the messages shown.
     */
    method ValidateForm(title: string, description: string, photoType: string)
      returns (isValid: bool, titleError: Option<string>, descriptionError: Option<string>)
      ensures isValid <==>
        |Trim(title)| >= 2 && |Trim(description)| >= 5 && PhotoRequirementMet(photoType, chosenFile, capturedBlob)
      ensures titleError.None? <==> |Trim(title)| >= 2
      ensures titleError == Some(TitleRequiredMessage) <==> Trim(title) == ""
      ensures titleError == Some(TitleTooShortMessage) <==> |Trim(title)| == 1
      ensures descriptionError.None? <==> |Trim(description)| >= 5
      ensures descriptionError == Some(DescriptionRequiredMessage) <==> Trim(description) == ""
      ensures descriptionError == Some(DescriptionTooShortMessage) <==> 1 <= |Trim(description)| < 5
    {
      isValid := true;
      titleError := None;
      descriptionError := None;

      var titleValue := Trim(title);
      if titleValue == "" {
        titleError := Some(TitleRequiredMessage);
        isValid := false;
      } else if |titleValue| < 2 {
        titleError := Some(TitleTooShortMessage);
        isValid := false;
      }

      var descValue := Trim(description);
      if descValue == "" {
        descriptionError := Some(DescriptionRequiredMessage);
        isValid := false;
      } else if |descValue| < 5 {
        descriptionError := Some(DescriptionTooShortMessage);
        isValid := false;
      }

      if photoType == "file" {
        if chosenFile.None? {
          isValid := false;
        }
      } else if photoType == "camera" {
        if capturedBlob.None? {
          isValid := false;
        }
      }
    }

    /**
     * The submit handler up to the request: an invalid form or a missing
     * photo stops with a message; otherwise the combined description and the
     * selected photo are sent.
     */
    method Submit(title: string, description: string, photoType: string) returns (r: Result<Submission, string>)
      ensures r.Ok? <==>
        |Trim(title)| >= 2 && |Trim(description)| >= 5 && SelectPhoto(photoType, chosenFile, capturedBlob).Some?
      ensures r.Ok? ==> r.value.description == ComposeDescription(title, description)
      ensures r.Ok? ==> Some(r.value.photo) == SelectPhoto(photoType, chosenFile, capturedBlob)
      ensures r.Err? ==> r.error == InvalidFormMessage || r.error == NoPhotoMessage
      ensures r == Err(NoPhotoMessage) ==> photoType != "file" && photoType != "camera"
    {
      var isValid, _, _ := ValidateForm(title, description, photoType);
      if !isValid {
        return Err(InvalidFormMessage);
      }
      var photo := SelectPhoto(photoType, chosenFile, capturedBlob);
      if photo.None? {
        return Err(NoPhotoMessage);
      }
      r := Ok(Submission(ComposeDescription(title, description), photo.value));
    }

    /** The photo input's change handler: a file over 5 MB is refused and the input cleared. */
    method ChooseFile(file: Option<Photo>) returns (message: Option<string>)
      modifies this`chosenFile
      ensures file.Some? && file.value.size > MaxPhotoSize ==> chosenFile == None && message == Some(FileTooLargeMessage)
      ensures !(file.Some? && file.value.size > MaxPhotoSize) ==> chosenFile == file && message == None
      ensures chosenFile.Some? ==> chosenFile.value.size <= MaxPhotoSize
    {
      chosenFile := file;
      message := None;
      if file.Some? && file.value.size > MaxPhotoSize {
        message := Some(FileTooLargeMessage);
        chosenFile := None;
      }
    }

    /** The capture button: with the camera stream open, the photo taken becomes the captured blob. */
    method Capture(streamActive: bool, blob: Photo)
      modifies this`capturedBlob
      ensures streamActive ==> capturedBlob == Some(blob)
      ensures !streamActive ==> capturedBlob == old(capturedBlob)
    {
      if streamActive {
        capturedBlob := Some(blob);
      }
    }

    /** The retake button forgets the captured blob. */
    method Retake()
      modifies this`capturedBlob
      ensures capturedBlob == None
    {
      capturedBlob := None;
    }

    /** `cleanup` forgets the captured blob. */
    method Cleanup()
      modifies this`capturedBlob
      ensures capturedBlob == None
    {
      capturedBlob := None;
    }
  }
}
