/** `GET` and `PATCH` on a single uploaded file. */
module FilesId {
  import opened Wrappers
  import opened Db

  /** The `EditFile` body. */
  datatype EditFile = EditFile(filename: Option<string>, ocr: Option<string>)

  /** The `UploadedFile` response: the file's id and name. */
  datatype UploadedFile = UploadedFile(id: int, filename: string)

  /** `From<file::Model> for UploadedFile`. */
  function ToUploaded(f: File): (r: UploadedFile)
    ensures r.id == f.id && r.filename == f.filename
  {
    UploadedFile(f.id, f.filename)
  }

  /** `get_file`: the stored bytes of any file, with no ownership check. */
  function GetFile(files: map<int, File>, id: int): (r: Result<seq<byte>, ApiError>)
    ensures r.Err? <==> id !in files
    ensures r.Err? ==> r.error == NotFound("File not found")
    ensures r.Ok? ==> r.value == files[id].data
  {
    if id in files then Ok(files[id].data) else Err(NotFound("File not found"))
  }

  /** The patch applied to a stored row: a given filename replaces the old one;
      a given OCR text becomes `Some`, an absent one keeps the old value, `None` included. */
  function ApplyEditFile(f: File, patch: EditFile): (r: File)
    ensures r.id == f.id && r.userId == f.userId && r.createdAt == f.createdAt && r.data == f.data
    ensures r.filename == patch.filename.GetOr(f.filename)
    ensures patch.ocr.Some? ==> r.ocr == patch.ocr
    ensures patch.ocr.None? ==> r.ocr == f.ocr
  {
    var f := if patch.filename.Some? then f.(filename := patch.filename.value) else f;
    if patch.ocr.Some? then f.(ocr := Some(patch.ocr.value)) else f
  }

  /** An edit cannot clear the OCR text: once present it stays present. */
  lemma OcrNeverCleared(f: File, patch: EditFile)
    requires f.ocr.Some?
    ensures ApplyEditFile(f, patch).ocr.Some?
  {
  }

  /** Sending the same patch twice is the same as sending it once, and an empty patch changes nothing. */
  lemma EditFileIdempotent(f: File, patch: EditFile)
    ensures ApplyEditFile(ApplyEditFile(f, patch), patch) == ApplyEditFile(f, patch)
    ensures ApplyEditFile(f, EditFile(None, None)) == f
  {
  }

  /** `edit_file`: NotFound before the ownership check, a non-owner is refused
      with the table unchanged, and the owner's patch rewrites that row only. */
  method EditFileHandler(db: Database, caller: int, id: int, patch: EditFile) returns (r: Result<UploadedFile, ApiError>)
    requires db.Valid()
    modifies db`files
    ensures db.Valid()
    ensures id !in old(db.files) ==> r == Err(NotFound("File not found")) && db.files == old(db.files)
    ensures id in old(db.files) && old(db.files)[id].userId != caller ==>
      r == Err(Unauthorized("You do not have permission to edit this file")) && db.files == old(db.files)
    ensures id in old(db.files) && old(db.files)[id].userId == caller ==>
      && db.files == old(db.files)[id := ApplyEditFile(old(db.files)[id], patch)]
      && r == Ok(UploadedFile(id, patch.filename.GetOr(old(db.files)[id].filename)))
  {
    if id !in db.files {
      return Err(NotFound("File not found"));
    }
    var file := db.files[id];
    if file.userId != caller {
      return Err(Unauthorized("You do not have permission to edit this file"));
    }
    if patch.filename.Some? {
      file := file.(filename := patch.filename.value);
    }
    if patch.ocr.Some? {
      file := file.(ocr := Some(patch.ocr.value));
    }
    db.files := db.files[id := file];
    r := Ok(ToUploaded(file));
  }

  /** Renaming a file leaves its bytes as they were. */
  method RenameKeepsDataScenario(owner: int, data: seq<byte>) returns (renamed: Result<UploadedFile, ApiError>, read: Result<seq<byte>, ApiError>)
    ensures renamed == Ok(UploadedFile(3, "b.png"))
    ensures read == Ok(data)
  {
    var db := new Database(map[], map[3 := File(3, owner, 0, "a.png", None, data)]);
    renamed := EditFileHandler(db, owner, 3, EditFile(Some("b.png"), None));
    read := GetFile(db.files, 3);
  }
}
