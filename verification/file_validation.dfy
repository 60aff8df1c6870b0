/** The file-metadata schemas (src/validation/file.validation.ts) as Joi
    object schemas. Number keys take a `Numeral`, the string-to-number
    conversion Joi applies to query and path parameters. */
module FileValidation {
  import opened Wrappers
  import opened Text
  import opened Joi

  const NameSpec: KeySpec :=
    KeySpec("name", Required, StringRule(Some(1), Some(255), None),
            map[StringBase := "File name must be a string",
                StringEmpty := "File name cannot be empty",
                StringMax := "File name cannot exceed 255 characters",
                AnyRequired := "File name is required"])

  const ExtensionSpec: KeySpec :=
    KeySpec("extension", Required, StringRule(None, None, None),
            map[StringBase := "Extension must be a string",
                AnyRequired := "Extension is required"])

  const MimeTypeSpec: KeySpec :=
    KeySpec("mimeType", Required, StringRule(None, None, None),
            map[StringBase := "MIME type must be a string",
                AnyRequired := "MIME type is required"])

  const SizeSpec: KeySpec :=
    KeySpec("size", Required, NumberRule(true),
            map[NumberBase := "Size must be a number",
                NumberPositive := "Size must be a positive number",
                AnyRequired := "Size is required"])

  const PathSpec: KeySpec :=
    KeySpec("path", Required, StringRule(None, None, None),
            map[StringBase := "Path must be a string",
                AnyRequired := "Path is required"])

  const UserIdSpec: KeySpec :=
    KeySpec("userId", Required, NumberRule(true),
            map[NumberBase := "User ID must be a number",
                NumberPositive := "User ID must be a positive number",
                AnyRequired := "User ID is required"])

  const FileUploadKeys: ObjectSchema :=
    [NameSpec, ExtensionSpec, MimeTypeSpec, SizeSpec, PathSpec, UserIdSpec]

  const PageSpec: KeySpec :=
    KeySpec("page", Default(Num(1.0)), NumberRule(true),
            map[NumberBase := "Page must be a number",
                NumberPositive := "Page must be a positive number"])

  const ListSizeSpec: KeySpec :=
    KeySpec("list_size", Default(Num(10.0)), NumberRule(true),
            map[NumberBase := "List size must be a number",
                NumberPositive := "List size must be a positive number"])

  const GetFilesKeys: ObjectSchema := [PageSpec, ListSizeSpec]

  const FileIdSpec: KeySpec :=
    KeySpec("id", Required, NumberRule(true),
            map[NumberBase := "ID must be a number",
                NumberPositive := "ID must be a positive number",
                AnyRequired := "ID is required"])

  const FileIdKeys: ObjectSchema := [FileIdSpec]

  /** Present, a string, and not empty (Joi strings refuse "" by default). */
  predicate IsNonEmptyString(v: Option<Value>) {
    v.Some? && v.value.Str? && v.value.s != ""
  }

  /** Present, a number or numeric string, and strictly positive. */
  predicate IsPositive(v: Option<Value>, numeral: Numeral) {
    v.Some? && AsNumber(v.value, numeral).Some? && AsNumber(v.value, numeral).value > 0.0
  }

  /** Absent, or present and strictly positive. */
  predicate IsAbsentOrPositive(v: Option<Value>, numeral: Numeral) {
    v.None? || IsPositive(v, numeral)
  }

  /** What an accepted upload body requires of each key. */
  predicate IsFileMetadata(body: Fields, numeral: Numeral) {
    && IsNonEmptyString(Lookup(body, "name")) && Utf16Length(body["name"].s) <= 255
    && IsNonEmptyString(Lookup(body, "extension"))
    && IsNonEmptyString(Lookup(body, "mimeType"))
    && IsPositive(Lookup(body, "size"), numeral)
    && IsNonEmptyString(Lookup(body, "path"))
    && IsPositive(Lookup(body, "userId"), numeral)
  }

  /** Each upload key accepts exactly what `IsFileMetadata` asks of it. */
  lemma FileUploadAccepts(body: Fields, numeral: Numeral)
    ensures (forall i :: 0 <= i < |FileUploadKeys| ==> Accepts(FileUploadKeys[i], Lookup(body, FileUploadKeys[i].key), numeral))
            <==> IsFileMetadata(body, numeral)
  {
    var ks := FileUploadKeys;
    assert ks[0] == NameSpec && ks[1] == ExtensionSpec && ks[2] == MimeTypeSpec;
    assert ks[3] == SizeSpec && ks[4] == PathSpec && ks[5] == UserIdSpec;
    var name := Lookup(body, "name");
    assert Accepts(NameSpec, name, numeral)
           <==> IsNonEmptyString(name) && Utf16Length(body["name"].s) <= 255;
    assert Accepts(ExtensionSpec, Lookup(body, "extension"), numeral) <==> IsNonEmptyString(Lookup(body, "extension"));
    assert Accepts(MimeTypeSpec, Lookup(body, "mimeType"), numeral) <==> IsNonEmptyString(Lookup(body, "mimeType"));
    assert Accepts(PathSpec, Lookup(body, "path"), numeral) <==> IsNonEmptyString(Lookup(body, "path"));
    assert Accepts(SizeSpec, Lookup(body, "size"), numeral) <==> IsPositive(Lookup(body, "size"), numeral);
    assert Accepts(UserIdSpec, Lookup(body, "userId"), numeral) <==> IsPositive(Lookup(body, "userId"), numeral);
  }

  /** `fileUploadSchema.validate(body, ...)`. */
  function FileUploadSchema(body: Fields, numeral: Numeral): (r: Validation)
    ensures r.Valid? <==> IsFileMetadata(body, numeral)
  {
    FileUploadAccepts(body, numeral);
    Validate(FileUploadKeys, body, numeral)
  }

  /** An empty extension falls back to Joi's own wording, the quoted key
      followed by "is not allowed to be empty", as the schema overrides no
      message for it. */
  lemma EmptyExtensionUsesDefaultMessage(body: Fields, numeral: Numeral)
    requires "extension" in body && body["extension"] == Str("")
    ensures FileUploadSchema(body, numeral).Invalid?
    ensures Detail(["extension"], Quoted("extension") + " is not allowed to be empty", StringEmpty)
            in FileUploadSchema(body, numeral).details
  {
    var ks := FileUploadKeys;
    var d := Fail(ExtensionSpec, StringEmpty, "");
    assert StringEmpty !in ExtensionSpec.messages;
    EmptyStringTemplate(ExtensionSpec, "");
    assert ks[1] == ExtensionSpec;
    assert KeyErrors(ks[1], body, numeral) == [d];
    KeyErrorsInResult(ks, body, numeral, 1, d);
  }

  /** The number a defaulted key ends up with: its converted value when
      present, its default when absent. */
  function PagingValue(query: Fields, key: string, default: real, numeral: Numeral): Value {
    if key in query && AsNumber(query[key], numeral).Some? then Num(AsNumber(query[key], numeral).value)
    else Num(default)
  }

  /** `getFilesSchema.validate(query, ...)`: a present page or list size
      must be positive; an absent page becomes 1 and an absent list size 10. */
  function GetFilesSchema(query: Fields, numeral: Numeral): (r: Validation)
    ensures r.Valid? <==>
              IsAbsentOrPositive(Lookup(query, "page"), numeral)
              && IsAbsentOrPositive(Lookup(query, "list_size"), numeral)
    ensures r.Valid? ==>
              r.value == map["page" := PagingValue(query, "page", 1.0, numeral),
                             "list_size" := PagingValue(query, "list_size", 10.0, numeral)]
  {
    var r := Validate(GetFilesKeys, query, numeral);
    assert GetFilesKeys[0] == PageSpec && GetFilesKeys[1] == ListSizeSpec;
    PagingOutput(query, numeral);
    r
  }

  lemma PagingOutput(query: Fields, numeral: Numeral)
    ensures Validate(GetFilesKeys, query, numeral).Valid? ==>
              Validate(GetFilesKeys, query, numeral).value
              == map["page" := PagingValue(query, "page", 1.0, numeral),
                     "list_size" := PagingValue(query, "list_size", 10.0, numeral)]
  {
    var ks := GetFilesKeys;
    var r := Validate(ks, query, numeral);
    if r.Valid? {
      assert ks[0] == PageSpec && ks[1] == ListSizeSpec;
      assert r.value == Output(ks, query, numeral);
      OutputPair(ks, query, numeral);
    }
  }

  /** An empty query lists the first page of ten. */
  lemma ListQueryDefaults(numeral: Numeral)
    ensures GetFilesSchema(map[], numeral) == Valid(map["page" := Num(1.0), "list_size" := Num(10.0)])
  {
  }

  /** A non-positive page is refused with the page message. */
  lemma NonPositivePageReported(query: Fields, numeral: Numeral)
    requires "page" in query && AsNumber(query["page"], numeral).Some?
    requires AsNumber(query["page"], numeral).value <= 0.0
    ensures GetFilesSchema(query, numeral).Invalid?
    ensures Detail(["page"], "Page must be a positive number", NumberPositive) in GetFilesSchema(query, numeral).details
  {
    var d := Detail(["page"], "Page must be a positive number", NumberPositive);
    assert GetFilesKeys[0] == PageSpec;
    assert d == Fail(PageSpec, NumberPositive, "");
    KeyErrorsInResult(GetFilesKeys, query, numeral, 0, d);
  }

  /** `fileIdSchema.validate(params, ...)`: the id is required and positive,
      and the accepted params hold just the converted id. */
  function FileIdSchema(params: Fields, numeral: Numeral): (r: Validation)
    ensures r.Valid? <==> IsPositive(Lookup(params, "id"), numeral)
    ensures r.Valid? ==> r.value == map["id" := Num(AsNumber(params["id"], numeral).value)]
  {
    var r := Validate(FileIdKeys, params, numeral);
    assert FileIdKeys[0] == FileIdSpec;
    OutputAt(FileIdKeys, params, numeral, 0);
    r
  }
}
