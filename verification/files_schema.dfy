/** The file records of clients/files/files_schema.py. None of them
    declares an alias, so every wire key is the field name itself. */
module FilesSchema {
  import opened Wrappers
  import opened Wire

  /** FileSchema: a stored file. The server assigns `id` and `url`. */
  datatype File = File(id: string, url: string, filename: string, directory: string)

  /** CreateFileRequestSchema: what the client uploads; no `id`. */
  datatype CreateFileRequest = CreateFileRequest(filename: string, directory: string, uploadFile: string)

  /** CreateFileResponseSchema: one file under the key `file`. The
      get-file response, imported by the assertions and tests as
      GetFileResponseSchema, has no class in the schema file; it is
      modelled with the same shape. */
  datatype FileResponse = FileResponse(file: File)

  const FileFields: seq<Field> :=
    [Field("id", "id"), Field("url", "url"), Field("filename", "filename"), Field("directory", "directory")]

  const CreateFileRequestFields: seq<Field> :=
    [Field("filename", "filename"), Field("directory", "directory"), Field("upload_file", "upload_file")]

  const FileResponseFields: seq<Field> := [Field("file", "file")]

  /** The tables declare no alias and no wire key twice. */
  lemma FileTablesUnaliased()
    ensures Unaliased(FileFields) && DistinctAliases(FileFields)
    ensures Unaliased(CreateFileRequestFields) && DistinctAliases(CreateFileRequestFields)
    ensures Unaliased(FileResponseFields) && DistinctAliases(FileResponseFields)
  {
  }

  /** `url` is an HttpUrl, held in its normal form; the other fields are
      plain strings. */
  predicate ValidFile(f: File, fm: Formats) {
    Normal(fm.httpUrl, f.url)
  }

  function FileValues(f: File): seq<Value> {
    [Str(f.id), Str(f.url), Str(f.filename), Str(f.directory)]
  }

  function EncodeFile(f: File): (m: Object)
  {
    Encode(FileFields, FileValues(f))
  }

  /** Parses a FileSchema object. The model has no `populate_by_name`, so
      only the wire keys are looked up (they equal the names anyway). A
      payload parses exactly when all four keys hold strings and the url
      passes the HttpUrl validator; the fields are then the values found,
      the url in its normal form. */
  function DecodeFile(obj: Object, fm: Formats): (r: Result<File, DecodeError>)
    ensures r.Success? <==>
              DecodeFields(FileFields, obj, false).Success? &&
              (var vals := DecodeFields(FileFields, obj, false).value;
               vals[0].Str? && vals[1].Str? && fm.httpUrl(vals[1].s).Some? && vals[2].Str? && vals[3].Str?)
    ensures r.Success? ==>
              AliasKeys(FileFields) <= obj.Keys && DecodeFields(FileFields, obj, false).Success? &&
              (var vals := DecodeFields(FileFields, obj, false).value;
               FileValues(r.value) == vals[1 := Normalised(vals[1], fm.httpUrl)])
    ensures r.Success? && Canonical(fm) ==> ValidFile(r.value, fm)
  {
    var vals :- DecodeFields(FileFields, obj, false);
    var id :- AsStr(vals[0], At(FileFields, 0));
    var url :- AsFormatted(vals[1], fm.httpUrl, At(FileFields, 1));
    var filename :- AsStr(vals[2], At(FileFields, 2));
    var directory :- AsStr(vals[3], At(FileFields, 3));
    assert forall i :: 0 <= i < 4 ==> FileFields[i].alias in obj;
    Success(File(id, url, filename, directory))
  }

  /** A valid file survives a by-alias dump and a parse unchanged. */
  lemma FileRoundTrip(f: File, fm: Formats)
    requires ValidFile(f, fm)
    ensures DecodeFile(EncodeFile(f), fm) == Success(f)
  {
    DecodeEncodeFields(FileFields, FileValues(f), false);
  }

  /** Parsing a payload and dumping the result gives back exactly the
      payload's schema keys (listed by FileWireKeys) with their values,
      except that the url is in its normal form; other keys are dropped. */
  lemma FileReencode(obj: Object, fm: Formats)
    requires DecodeFile(obj, fm).Success?
    ensures EncodeFile(DecodeFile(obj, fm).value) ==
              Project(obj, AliasKeys(FileFields))["url" := Normalised(obj["url"], fm.httpUrl)]
  {
    FileTablesUnaliased();
    var vals := DecodeFields(FileFields, obj, false).value;
    assert Lookup(obj, FileFields[1], false) == Some(vals[1]);
    ReencodeFields(FileFields, obj, false, vals);
    EncodeReplaced(FileFields, vals, 1, Normalised(vals[1], fm.httpUrl));
  }

  function CreateFileRequestValues(q: CreateFileRequest): seq<Value> {
    [Str(q.filename), Str(q.directory), Str(q.uploadFile)]
  }

  function EncodeCreateFileRequest(q: CreateFileRequest): (m: Object)
  {
    Encode(CreateFileRequestFields, CreateFileRequestValues(q))
  }

  /** A request parses exactly when its three keys hold strings, and then
      its fields are the values found. */
  function DecodeCreateFileRequest(obj: Object): (r: Result<CreateFileRequest, DecodeError>)
    ensures r.Success? <==>
              DecodeFields(CreateFileRequestFields, obj, false).Success? &&
              (var vals := DecodeFields(CreateFileRequestFields, obj, false).value;
               vals[0].Str? && vals[1].Str? && vals[2].Str?)
    ensures r.Success? ==>
              AliasKeys(CreateFileRequestFields) <= obj.Keys &&
              CreateFileRequestValues(r.value) == DecodeFields(CreateFileRequestFields, obj, false).value
  {
    var vals :- DecodeFields(CreateFileRequestFields, obj, false);
    var filename :- AsStr(vals[0], At(CreateFileRequestFields, 0));
    var directory :- AsStr(vals[1], At(CreateFileRequestFields, 1));
    var uploadFile :- AsStr(vals[2], At(CreateFileRequestFields, 2));
    assert forall i :: 0 <= i < 3 ==> CreateFileRequestFields[i].alias in obj;
    Success(CreateFileRequest(filename, directory, uploadFile))
  }

  lemma CreateFileRequestRoundTrip(q: CreateFileRequest)
    ensures DecodeCreateFileRequest(EncodeCreateFileRequest(q)) == Success(q)
  {
    DecodeEncodeFields(CreateFileRequestFields, CreateFileRequestValues(q), false);
  }

  function EncodeFileResponse(r: FileResponse): (m: Object)
  {
    Encode(FileResponseFields, [Obj(EncodeFile(r.file))])
  }

  function DecodeFileResponse(obj: Object, fm: Formats): (r: Result<FileResponse, DecodeError>)
    ensures r.Success? <==> "file" in obj && obj["file"].Obj? && DecodeFile(obj["file"].fields, fm).Success?
    ensures r.Success? ==> "file" in obj && obj["file"].Obj? && DecodeFile(obj["file"].fields, fm) == Success(r.value.file)
  {
    var vals :- DecodeFields(FileResponseFields, obj, false);
    var inner :- AsObj(vals[0], At(FileResponseFields, 0));
    var file :- Within("file", DecodeFile(inner, fm));
    Success(FileResponse(file))
  }

  lemma FileResponseRoundTrip(r: FileResponse, fm: Formats)
    requires ValidFile(r.file, fm)
    ensures DecodeFileResponse(EncodeFileResponse(r), fm) == Success(r)
  {
    DecodeEncodeFields(FileResponseFields, [Obj(EncodeFile(r.file))], false);
    FileRoundTrip(r.file, fm);
  }

  lemma FileWireKeys(f: File)
    ensures EncodeFile(f).Keys == AliasKeys(FileFields) == {"id", "url", "filename", "directory"}
  {
    AliasKeysListed(FileFields, ["id", "url", "filename", "directory"]);
  }

  lemma CreateFileRequestWireKeys(q: CreateFileRequest)
    ensures EncodeCreateFileRequest(q).Keys == {"filename", "directory", "upload_file"}
  {
  }

  lemma FileResponseWireKeys(r: FileResponse)
    ensures EncodeFileResponse(r).Keys == {"file"}
  {
  }
}
