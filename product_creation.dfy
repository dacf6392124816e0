/**
 * POST /api/products once the upload middleware has stored the files: the field and image
 * checks, the product document built from the form, and the removal of the stored files
 * when converting a serving field or saving throws. The form's objects are built by the
 * multipart parser with no prototype (`NoPrototype`). The uploads directory is a class whose set of paths `fs.unlinkSync`
 * shrinks; the store's `save` is a parameter of the model.
 */
module ProductCreation {
  import opened Wrappers
  import opened JsValue

  const MissingFieldsMessage := "Missing required fields"
  const NoImageMessage := "At least one product image is required"

  /** Files stored in the uploads directory are served under this URL prefix. */
  const UploadsUrlPrefix := "/uploads/"

  /** An element of `req.files`: a file the disk storage has written. */
  datatype UploadedFile = UploadedFile(originalname: string, mimetype: string, filename: string, path: string)

  /** `parseInt(v)`: the model keeps the string parsed (ToString of `v`), not the number it gives. */
  datatype ParsedInt = ParseIntOf(text: string)

  datatype ServingInformation = ServingInformation(
    servingSize: Value,
    servingPerContainer: ParsedInt,
    preparationTime: ParsedInt)

  /** The document passed to the Product model. */
  datatype Product = Product(
    name: Value,
    description: Value,
    images: seq<string>,
    inStock: bool,
    foodPreference: Value,
    servingInformation: ServingInformation,
    notes: Value)

  /** `req.body.key` for the multipart text fields; an absent field reads as undefined. */
  function Field(body: map<string, Value>, key: string): Value {
    if key in body then body[key] else Undefined
  }

  /** `req.files.map(file => `/uploads/${file.filename}`)`. */
  function ImageUrls(files: seq<UploadedFile>): (urls: seq<string>)
    ensures |urls| == |files|
    ensures forall i :: 0 <= i < |files| ==> urls[i] == UploadsUrlPrefix + files[i].filename
  {
    if files == [] then [] else [UploadsUrlPrefix + files[0].filename] + ImageUrls(files[1..])
  }

  /** `req.body.notes || ''`. */
  function NotesOrEmpty(notes: Value): Value {
    if Truthy(notes) then notes else Str("")
  }

  /**
   * `parseInt(v)` of a form field, or None when the ToString it starts with throws: the field
   * is an object, which has no prototype, or an array holding one.
   */
  function ParseInt(v: Value): Option<ParsedInt> {
    match ToJsString(NoPrototype, v)
    case Some(text) => Some(ParseIntOf(text))
    case None => None
  }

  /** The serving information and the product document; None when a `parseInt` throws. */
  function BuildProduct(body: map<string, Value>, files: seq<UploadedFile>): Option<Product> {
    match (ParseInt(Field(body, "servingPerContainer")), ParseInt(Field(body, "preparationTime")))
    case (Some(perContainer), Some(preparation)) =>
      Some(Product(
        Field(body, "name"),
        Field(body, "description"),
        ImageUrls(files),
        Field(body, "inStock") == Str("true"),
        Field(body, "foodPreference"),
        ServingInformation(Field(body, "servingSize"), perContainer, preparation),
        NotesOrEmpty(Field(body, "notes"))))
    case _ => None
  }

  /** The three fields the handler insists on are truthy. */
  predicate RequiredPresent(body: map<string, Value>) {
    Truthy(Field(body, "name")) && Truthy(Field(body, "description"))
    && Truthy(Field(body, "foodPreference"))
  }

  /**
   * The handler's steps before saving: refuse with a message, build the product, or throw
   * while building it (a serving field whose ToString throws).
   */
  datatype Validation = Build(product: Product) | Refuse(message: string) | BuildThrew

  function ValidateProduct(body: map<string, Value>, files: Option<seq<UploadedFile>>): (r: Validation)
    ensures !r.Refuse? ==> files.Some? && |files.value| > 0
  {
    if !RequiredPresent(body) then Refuse(MissingFieldsMessage)
    else if files.None? || |files.value| == 0 then Refuse(NoImageMessage)
    else
      match BuildProduct(body, files.value)
      case Some(product) => Build(product)
      case None => BuildThrew
  }

  /** The outcome of `product.save()`. */
  datatype SaveResult = Saved | SaveError(message: string)

  /** The exception the catch block handles. */
  datatype Cause =
    | ConversionFailed             // `parseInt` of a serving field threw a TypeError
    | SaveFailed(message: string)  // validation or database error raised by `save`

  /**
   * The handler's answer. `UnlinkErrorEscaped`: an `unlinkSync` in the catch block threw, so
   * the handler's promise is rejected and it sends no response of its own.
   */
  datatype Response =
    | Created(product: Product)
    | BadRequest(message: string)
    | ServerError(cause: Cause)
    | UnlinkErrorEscaped

  function Status(r: Response): Option<int> {
    match r
    case Created(_) => Some(201)
    case BadRequest(_) => Some(400)
    case ServerError(_) => Some(500)
    case UnlinkErrorEscaped => None
  }

  /** The on-disk path of every uploaded file, in upload order. */
  function PathsOf(files: seq<UploadedFile>): seq<string> {
    seq(|files|, i requires 0 <= i < |files| => files[i].path)
  }

  /** The directory after unlinking paths one by one, and whether the run finished without an error. */
  datatype Cleanup = Cleanup(disk: set<string>, completed: bool)

  /** `paths.forEach(p => fs.unlinkSync(p))`: a path that is not on disk throws and ends the loop. */
  function UnlinkAll(disk: set<string>, paths: seq<string>): Cleanup {
    if paths == [] then Cleanup(disk, true)
    else if paths[0] !in disk then Cleanup(disk, false)
    else UnlinkAll(disk - {paths[0]}, paths[1..])
  }

  ghost predicate Distinct(paths: seq<string>) {
    forall i, j :: 0 <= i < j < |paths| ==> paths[i] != paths[j]
  }

  /**
   * The unlinking finishes exactly when the paths are distinct and all on disk; it then has
   * removed every one of them and nothing else.
   */
  lemma {:induction false} UnlinkAllCompletes(disk: set<string>, paths: seq<string>)
    ensures UnlinkAll(disk, paths).completed
            <==> Distinct(paths) && forall p :: p in paths ==> p in disk
    ensures UnlinkAll(disk, paths).completed
            ==> UnlinkAll(disk, paths).disk == disk - set p | p in paths
  {
    if paths != [] && paths[0] in disk {
      var rest := paths[1..];
      UnlinkAllCompletes(disk - {paths[0]}, rest);
      assert forall p :: p in rest ==> p in paths;
      if Distinct(paths) {
        forall i, j | 0 <= i < j < |rest| ensures rest[i] != rest[j] {
          assert rest[i] == paths[i + 1] && rest[j] == paths[j + 1];
        }
        assert paths[0] !in rest by {
          forall k | 0 <= k < |rest| ensures rest[k] != paths[0] {
            assert rest[k] == paths[k + 1];
          }
        }
      }
      if UnlinkAll(disk, paths).completed {
        forall i, j | 0 <= i < j < |paths| ensures paths[i] != paths[j] {
          assert paths[j] == rest[j - 1];
          if i > 0 { assert paths[i] == rest[i - 1]; }
        }
        assert paths == [paths[0]] + rest;
        assert (set p | p in paths) == {paths[0]} + set p | p in rest;
      }
    }
  }

  /** Whether or not the unlinking finishes, it only removes paths from the list. */
  lemma {:induction false} UnlinkAllOnlyRemovesListed(disk: set<string>, paths: seq<string>)
    ensures UnlinkAll(disk, paths).disk <= disk
    ensures forall p :: p !in paths ==> (p in UnlinkAll(disk, paths).disk <==> p in disk)
  {
    if paths != [] && paths[0] in disk {
      UnlinkAllOnlyRemovesListed(disk - {paths[0]}, paths[1..]);
      assert forall p :: p in paths[1..] ==> p in paths;
    }
  }

  /** The handler's answer and the uploads directory afterwards, from the directory before. */
  datatype Outcome = Outcome(response: Response, disk: set<string>)

  /** The catch block: unlink every uploaded file, then answer 500 with the exception. */
  function CatchBlock(uploaded: seq<UploadedFile>, cause: Cause, disk: set<string>): Outcome {
    var cleanup := UnlinkAll(disk, PathsOf(uploaded));
    Outcome(if cleanup.completed then ServerError(cause) else UnlinkErrorEscaped, cleanup.disk)
  }

  /** The exception thrown after both checks passed, if any: by a `parseInt` or by `save`. */
  function Thrown(body: map<string, Value>, files: Option<seq<UploadedFile>>, save: SaveResult): Option<Cause> {
    match ValidateProduct(body, files)
    case Refuse(_) => None
    case BuildThrew => Some(ConversionFailed)
    case Build(_) => if save.SaveError? then Some(SaveFailed(save.message)) else None
  }

  function CreateProductOutcome(
    body: map<string, Value>, files: Option<seq<UploadedFile>>, save: SaveResult, disk: set<string>): Outcome
  {
    match ValidateProduct(body, files)
    case Refuse(m) => Outcome(BadRequest(m), disk)
    case BuildThrew => CatchBlock(files.value, ConversionFailed, disk)
    case Build(product) =>
      match save
      case Saved => Outcome(Created(product), disk)
      case SaveError(m) => CatchBlock(files.value, SaveFailed(m), disk)
  }

  /** A falsy name, description or foodPreference gives 400 "Missing required fields", whatever the files. */
  lemma MissingFieldsCheckedFirst(
    body: map<string, Value>, files: Option<seq<UploadedFile>>, save: SaveResult, disk: set<string>)
    ensures CreateProductOutcome(body, files, save, disk).response == BadRequest(MissingFieldsMessage)
            <==> !RequiredPresent(body)
  {
  }

  /** With the fields present and no file uploaded, the answer is 400 "At least one product image is required". */
  lemma NoImageRejected(
    body: map<string, Value>, files: Option<seq<UploadedFile>>, save: SaveResult, disk: set<string>)
    requires RequiredPresent(body)
    ensures CreateProductOutcome(body, files, save, disk).response == BadRequest(NoImageMessage)
            <==> files.None? || files.value == []
  {
  }

  /** The early 400 answers leave the uploads directory as it was: stored files are not removed. */
  lemma EarlyRejectionKeepsUploads(
    body: map<string, Value>, files: Option<seq<UploadedFile>>, save: SaveResult, disk: set<string>)
    requires CreateProductOutcome(body, files, save, disk).response.BadRequest?
    ensures CreateProductOutcome(body, files, save, disk).disk == disk
  {
  }

  /**
   * The product built from a valid request: one image URL per uploaded file in upload order,
   * `inStock` true only for the string "true", `notes` the notes when truthy and "" otherwise.
   */
  lemma CreatedProductFields(
    body: map<string, Value>, files: Option<seq<UploadedFile>>, disk: set<string>)
    requires CreateProductOutcome(body, files, Saved, disk).response.Created?
    ensures var p := CreateProductOutcome(body, files, Saved, disk).response.product;
            files.Some? && |p.images| == |files.value| > 0
            && (forall i :: 0 <= i < |files.value| ==> p.images[i] == UploadsUrlPrefix + files.value[i].filename)
            && (p.inStock <==> Field(body, "inStock") == Str("true"))
            && (Truthy(Field(body, "notes")) ==> p.notes == Field(body, "notes"))
            && (!Truthy(Field(body, "notes")) ==> p.notes == Str(""))
            && Truthy(p.name) && Truthy(p.description) && Truthy(p.foodPreference)
            && p.name == Field(body, "name") && p.description == Field(body, "description")
            && p.foodPreference == Field(body, "foodPreference")
            && Some(p.servingInformation.servingPerContainer.text) == ToJsString(NoPrototype, Field(body, "servingPerContainer"))
            && Some(p.servingInformation.preparationTime.text) == ToJsString(NoPrototype, Field(body, "preparationTime"))
    ensures CreateProductOutcome(body, files, Saved, disk).disk == disk
  {
  }

  /**
   * A serving field whose ToString throws (an object, which a bracketed field name such as
   * `servingPerContainer[x]` produces, or an array holding one) makes the handler throw
   * after the checks, whatever `save` would do.
   */
  lemma ServingConversionThrows(
    body: map<string, Value>, files: Option<seq<UploadedFile>>, save: SaveResult, key: string)
    requires RequiredPresent(body) && files.Some? && files.value != []
    requires key == "servingPerContainer" || key == "preparationTime"
    requires ToJsString(NoPrototype, Field(body, key)).None?
    ensures Thrown(body, files, save) == Some(ConversionFailed)
  {
  }

  /**
   * The handler answers 201 exactly when the fields are present, a file was uploaded, both
   * serving fields convert to strings and `save` succeeds.
   */
  lemma CreatedExactly(
    body: map<string, Value>, files: Option<seq<UploadedFile>>, save: SaveResult, disk: set<string>)
    ensures CreateProductOutcome(body, files, save, disk).response.Created?
            <==> RequiredPresent(body) && files.Some? && files.value != []
                 && ToJsString(NoPrototype, Field(body, "servingPerContainer")).Some?
                 && ToJsString(NoPrototype, Field(body, "preparationTime")).Some?
                 && save == Saved
  {
  }

  /**
   * A request with a bracketed serving field, such as `servingPerContainer[x]=1`, and one
   * stored image: the field is an object without a prototype, so the handler removes the
   * image and answers 500, even though `save` would have succeeded.
   */
  lemma BracketedFieldGives500(m: map<string, Value>)
    ensures var body := map["name" := Str("a"), "description" := Str("b"), "foodPreference" := Str("Vegan"),
                            "servingPerContainer" := Obj(m)];
            var image := UploadedFile("p.png", "image/png", "1-p.png", "uploads/1-p.png");
            CreateProductOutcome(body, Some([image]), Saved, {"uploads/1-p.png", "uploads/other.png"})
            == Outcome(ServerError(ConversionFailed), {"uploads/other.png"})
  {
    var body := map["name" := Str("a"), "description" := Str("b"), "foodPreference" := Str("Vegan"),
                    "servingPerContainer" := Obj(m)];
    assert Field(body, "servingPerContainer") == Obj(m);
    var image := UploadedFile("p.png", "image/png", "1-p.png", "uploads/1-p.png");
    assert PathsOf([image]) == ["uploads/1-p.png"];
    assert {"uploads/1-p.png", "uploads/other.png"} - {"uploads/1-p.png"} == {"uploads/other.png"};
  }

  /**
   * When an exception is thrown after the checks passed, and the uploaded paths are distinct
   * files on disk, the answer is 500 with that exception, every uploaded path is gone, and no
   * other path has changed.
   */
  lemma CaughtErrorRemovesUploads(
    body: map<string, Value>, files: Option<seq<UploadedFile>>, save: SaveResult, disk: set<string>)
    requires Thrown(body, files, save).Some?
    requires files.Some? && Distinct(PathsOf(files.value)) && forall f :: f in files.value ==> f.path in disk
    ensures var out := CreateProductOutcome(body, files, save, disk);
            out.response == ServerError(Thrown(body, files, save).value)
            && (forall f :: f in files.value ==> f.path !in out.disk)
            && (forall p :: (forall f :: f in files.value ==> f.path != p) ==> (p in out.disk <==> p in disk))
  {
    var paths := PathsOf(files.value);
    forall p | p in paths ensures p in disk {
      var i :| 0 <= i < |paths| && paths[i] == p;
      assert files.value[i] in files.value;
    }
    UnlinkAllCompletes(disk, paths);
    forall f | f in files.value ensures f.path in paths {
      var i :| 0 <= i < |files.value| && files.value[i] == f;
      assert paths[i] == f.path;
    }
  }

  /**
   * When an exception is thrown after the checks and some uploaded path is missing from disk
   * or listed twice, an `unlinkSync` throws inside the catch block and the handler answers nothing.
   */
  lemma CaughtErrorWithMissingFileEscapes(
    body: map<string, Value>, files: Option<seq<UploadedFile>>, save: SaveResult, disk: set<string>)
    requires Thrown(body, files, save).Some?
    requires files.Some? && !(Distinct(PathsOf(files.value)) && forall p :: p in PathsOf(files.value) ==> p in disk)
    ensures CreateProductOutcome(body, files, save, disk).response == UnlinkErrorEscaped
  {
    UnlinkAllCompletes(disk, PathsOf(files.value));
  }

  /** Without an exception after the checks the directory is unchanged; with one it is the catch block's. */
  lemma CatchBlockOnlyOnException(
    body: map<string, Value>, files: Option<seq<UploadedFile>>, save: SaveResult, disk: set<string>)
    ensures Thrown(body, files, save).None? ==> CreateProductOutcome(body, files, save, disk).disk == disk
    ensures Thrown(body, files, save).Some? ==>
              files.Some? && CreateProductOutcome(body, files, save, disk)
                             == CatchBlock(files.value, Thrown(body, files, save).value, disk)
  {
  }

  /** On every path through the handler, a path that is not an uploaded file keeps its state. */
  lemma OnlyUploadsRemoved(
    body: map<string, Value>, files: Option<seq<UploadedFile>>, save: SaveResult, disk: set<string>)
    ensures var out := CreateProductOutcome(body, files, save, disk);
            out.disk <= disk
            && forall p :: (files.None? || p !in PathsOf(files.value)) ==> (p in out.disk <==> p in disk)
  {
    if Thrown(body, files, save).Some? {
      UnlinkAllOnlyRemovesListed(disk, PathsOf(files.value));
    }
  }

  /** The uploads directory, as the set of paths present in it. */
  class UploadDir {
    var files: set<string>

    constructor (files: set<string>)
      ensures this.files == files
    {
      this.files := files;
    }

    /** `fs.unlinkSync(path)`: removes the file, or reports the error it would throw. */
    method Unlink(path: string) returns (ok: bool)
      modifies this
      ensures ok == (path in old(files))
      ensures files == old(files) - {path}
    {
      ok := path in files;
      if ok {
        files := files - {path};
      }
    }
  }

  /** The catch block's `req.files.forEach(file => fs.unlinkSync(file.path))`. */
  method RemoveUploaded(dir: UploadDir, uploaded: seq<UploadedFile>) returns (completed: bool)
    modifies dir
    ensures Cleanup(dir.files, completed) == UnlinkAll(old(dir.files), PathsOf(uploaded))
  {
    var paths := PathsOf(uploaded);
    var i := 0;
    while i < |uploaded|
      invariant 0 <= i <= |uploaded|
      invariant UnlinkAll(dir.files, paths[i..]) == UnlinkAll(old(dir.files), paths)
    {
      assert paths[i..][0] == uploaded[i].path && paths[i..][1..] == paths[i + 1..];
      var ok := dir.Unlink(uploaded[i].path);
      if !ok {
        return false;
      }
      i := i + 1;
    }
    return true;
  }

  /** The POST /api/products handler, acting on the uploads directory. */
  method CreateProduct(
    dir: UploadDir, body: map<string, Value>, files: Option<seq<UploadedFile>>, save: SaveResult)
    returns (response: Response)
    modifies dir
    ensures Outcome(response, dir.files) == CreateProductOutcome(body, files, save, old(dir.files))
  {
    if !RequiredPresent(body) {
      return BadRequest(MissingFieldsMessage);
    }
    if files.None? || |files.value| == 0 {
      return BadRequest(NoImageMessage);
    }
    var cause: Cause;
    match BuildProduct(body, files.value) {
      case None =>
        cause := ConversionFailed;
      case Some(product) =>
        match save {
          case Saved =>
            return Created(product);
          case SaveError(m) =>
            cause := SaveFailed(m);
        }
    }
    var completed := RemoveUploaded(dir, files.value);
    response := if completed then ServerError(cause) else UnlinkErrorEscaped;
  }
}
