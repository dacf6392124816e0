# Package settings and product creation: a verified model

The backend of a food-delivery shop admin exposes, among plain CRUD routes, two request
handlers with hand-written decision logic. This project models both in Dafny and
proves what each answers to every request.

- **POST /api/package-settings** (`Package.js`). The handler destructures four fields from the
  JSON body. It answers 400 "All fields are required" if any of them is falsy. It then walks
  `orderValueRanges` and answers 400 "Maximum order value must be greater than minimum order
  value" at the first range with `minOrderValue >= maxOrderValue`. Otherwise it saves a document
  made of exactly the four values and answers 201. Exceptions thrown on the way become 500:
  destructuring a null body, iterating a value that is not iterable, reading a property of a
  null range, comparing a bound object that has its own `toString` key, or a failing `save`.
- **POST /api/products** (`Product.js`). The upload middleware keeps a file only when both its MIME
  type and its lower-cased extension contain one of `jpeg`, `jpg`, `png`, `webp`. A kept file is
  stored under the name `<timestamp>-<original name>`. The handler answers 400 "Missing required
  fields" when `name`, `description` or `foodPreference` is falsy. It answers 400 "At least one
  product image is required" when no file arrived. Otherwise it builds the product: one
  `/uploads/<filename>` URL per file, `inStock` true only for the string `"true"`, and `notes`
  defaulting to `""`. Building the serving information calls `parseInt` on two fields, and its
  first step, ToString, throws on any object of the form. The multipart parser builds the body
  and its nested objects (from bracketed field names such as `servingPerContainer[x]`) with
  `Object.create(null)`, so they have no `toString` or `valueOf`. When that conversion or `save`
  throws, the catch block unlinks every uploaded file, then answers 500.

The model's files:

- `js_value.dfy`: the JavaScript values of a request body. It covers truthiness, property reads,
  ToString (`ToJsString`, for objects with or without a prototype) and the `>=` operator
  (ToPrimitive, then a string comparison or a numeric one).
- `text.dfy`: substring occurrence, ASCII lower-casing and decimal numerals.
- `package_settings.dfy`: the package handler as the function `CreatePackage`. The range loop is
  the method `ScanRanges`, proved against the function `FirstFailure`.
- `product_upload.dfy`: the file filter, whose regular-expression test is an unanchored search.
  Also Node's POSIX `path.extname`, and the stored file name with its inverse.
- `product_creation.dfy`: the product handler. The uploads directory is the class `UploadDir`,
  whose set of paths `Unlink` shrinks. The method `CreateProduct` is proved to agree with the
  function `CreateProductOutcome`, which gives the answer and the directory afterwards.

Behaviour of the code that the model keeps as written:

- A delivery time or radius of `0` counts as missing, though the schema allows 0.
- An empty `orderValueRanges` array passes both checks and goes to `save`. So does a non-empty
  string: each of its characters has an undefined `minOrderValue`, and `undefined >= undefined`
  is false.
- A range with `minOrderValue == maxOrderValue` is rejected.
- A null range that comes before the first inverted range gives 500, not 400. So does a range
  whose bound is an object with its own `toString` key: the key's value is not callable, so the
  conversion inside `>=` throws a TypeError.
- Bounds sent as strings compare as text, not as numbers. The range from `"10"` to `"5"` passes
  the loop, because `"10" < "5"` as text, and goes to `save` (`TextBoundsPassAsText`). The
  schema then casts the bounds to 10 and 5, so a range with minimum above maximum is stored.
  The range check therefore guarantees `minOrderValue < maxOrderValue` only for numeric bounds.
- The two early 400 answers of the product handler leave the uploaded files on disk. Only the
  paths where a `parseInt` or `save` throws remove them, although the code's own comment
  (Product.js:150, "Delete uploaded files if there's an error") reads as meant for every error.
- If an uploaded path is already gone, `unlinkSync` throws inside the catch block. The same
  happens if a path is listed twice, which two files with the same name stored in the same
  millisecond produce. The exception escapes the handler, which sends no response of its own
  (`UnlinkErrorEscaped`), and the files after that one stay on disk.

Parameters stand for what the code delegates to libraries. `SaveResult` is the outcome of
`save()`, which runs the schema validators and the database write. The timestamp of a stored
file is an argument of `StoredFilename`. The uploads directory's initial contents are the
`UploadDir` object's state.

## Model

| member | source | states |
|---|---|---|
| JsValue.Truthy | Package.js:66 | a value is truthy exactly when it is not one of undefined, null, false, 0, NaN, "" |
| JsValue.ToPrimitive | Package.js:75 | no contract; the conversion `>=` applies to each operand, characterised by OwnToStringThrows and OwnToStringInArrayThrows |
| JsValue.JoinElement | Package.js:75 | no contract; how join converts an array element, characterised by OwnToStringInArrayThrows |
| JsValue.ToNumber | Package.js:75 | no contract; the numeric conversion of a primitive, characterised by NumberComparison and UndefinedNeverGreaterOrEqual |
| JsValue.StringToNumber | Package.js:75 | no contract; after trimming whitespace, "" (so also an all-whitespace string) is 0, a decimal integer string is its value, any other string is NaN (see Left out) |
| JsValue.ObjectString | Package.js:75 | no contract; converting an object to a primitive, for `>=` at Package.js:75 and `parseInt` at Product.js:126-127, characterised by ToJsStringThrows and OwnToStringThrows |
| JsValue.ToJsString | Product.js:126-127 | no contract; the ToString that `parseInt` applies first, or None when it throws, characterised by ToJsStringThrows and ToJsStringOfStrings |
| JsValue.ToJsStringThrows | Product.js:126-127 | ToString of an object throws exactly when it has no prototype or has an own `toString` key, and an array holding such an object throws too |
| JsValue.ToJsStringOfStrings | Product.js:126-127 | ToString of a string is that string, and of an array of strings their comma-joined text |
| JsValue.StringLess | Package.js:75 | no contract; the string `<` inside `>=`, characterised by StringsCompareAsText, StringLessIrreflexive and EqualStringsGreaterOrEqual |
| JsValue.StringLessIrreflexive | Package.js:75 | no string is less than itself |
| JsValue.GreaterOrEqual | Package.js:75 | no contract; the `>=` operator, or None when a conversion throws, characterised by the lemmas below |
| JsValue.NumberComparison | Package.js:75 | on two numbers `>=` is the integer order |
| JsValue.UndefinedNeverGreaterOrEqual | Package.js:75 | a missing bound (undefined) never makes `>=` true, on either side |
| JsValue.OwnToStringThrows | Package.js:75 | an object with an own `toString` key makes `>=` throw, on either side |
| JsValue.OwnToStringInArrayThrows | Package.js:75 | such an object inside an array operand makes `>=` throw too, on either side |
| JsValue.StringsCompareAsText | Package.js:75 | "10" >= "5" is false: strings compare as text |
| JsValue.EqualStringsGreaterOrEqual | Package.js:75 | two equal strings satisfy `>=` |
| PackageSettings.CreatePackage | Package.js:56-105 | no contract; the handler's answer, characterised by the lemmas below |
| PackageSettings.AllPresent | Package.js:66 | no contract; all four fields truthy, characterised by MissingFieldRejected and ZeroCountsAsMissing |
| PackageSettings.Destructure | Package.js:58-63 | no contract; the four destructured values, characterised by RecordIsRequestFields and OtherKeysIgnored |
| PackageSettings.Iterate | Package.js:74 | no contract; the elements for..of visits, characterised by InvertedRangeRejected, EmptyRangesAccepted and AcceptedRangesOrdered |
| PackageSettings.CheckRange | Package.js:75-80 | no contract; one iteration of the range loop, characterised by InvertedRangeAmongObjects, TextBoundsPassAsText and OwnToStringBoundGives500 |
| PackageSettings.FirstFailure | Package.js:74-81 | no contract; the loop's exit, characterised by FirstFailureIsFirst and FirstFailureUnique |
| PackageSettings.FirstFailureIsFirst | Package.js:74-81 | the loop stops at the first range that is not ordered (inverted, nullish, or with a bound that `>=` cannot convert), and every earlier range is ordered; it reaches the end only when every range is ordered |
| PackageSettings.FirstFailureUnique | Package.js:74-81 | any exit with that description is the loop's exit |
| PackageSettings.ScanRanges | Package.js:74-81 | the loop with early exit returns the first range that fails, or that all passed |
| PackageSettings.MissingFieldRejected | Package.js:66-71 | the answer is 400 "All fields are required" if and only if one of the four fields is falsy |
| PackageSettings.ZeroCountsAsMissing | Package.js:66-71 | a field equal to 0 is answered as missing |
| PackageSettings.PresenceCheckFirst | Package.js:66-81 | with a field missing the answer is 400 and never the range message |
| PackageSettings.InvertedRangeRejected | Package.js:74-80 | the range 400 is given if and only if the fields are present, the ranges iterate, and some range has min >= max with all earlier ranges ordered |
| PackageSettings.InvertedRangeAmongObjects | Package.js:74-80 | for an array of non-null ranges whose bounds `>=` can convert, the range 400 is given if and only if some range has min >= max, equality included |
| PackageSettings.StopsAtInvertedAmongComparable | Package.js:74-80 | among ranges whose bounds `>=` can convert, the loop stops at an inverted range if and only if some range has min >= max |
| PackageSettings.TextBoundsPassAsText | Package.js:74-94 | a range with string bounds "10" and "5" passes the loop and the body is created |
| PackageSettings.UnconvertibleRangeGives500 | Package.js:74-103 | a single range whose bounds `>=` cannot convert gives 500 naming range 0, whatever save does |
| PackageSettings.OwnToStringBoundGives500 | Package.js:74-103 | in a single-range body, a bound that is an object with an own `toString` key, as minimum or as maximum, gives 500, whatever the other bound and whatever save does |
| PackageSettings.EqualBoundsRejected | Package.js:75-80 | a body with a single range whose numeric bounds are equal gives 400 with the range message, whatever save does |
| PackageSettings.EmptyRangesAccepted | Package.js:66-94 | an empty ranges array passes both checks and the four fields are created |
| PackageSettings.AcceptedRangesOrdered | Package.js:74-97 | an accepted body was saved, had all fields present and every range passed; numeric bounds satisfy min < max; the status is 201 |
| PackageSettings.RecordIsRequestFields | Package.js:84-89 | the created record holds the four body values unchanged |
| PackageSettings.OtherKeysIgnored | Package.js:58-63 | dropping every body key other than the four fields does not change the answer |
| ProductUpload.TestImageTypes | Product.js:30-32 | no contract; the regular-expression test, characterised by TestIsSubstringSearch |
| ProductUpload.ExtName | Product.js:32 | no contract; Node's POSIX path.extname, characterised by ExtNameShape and ExtNameOfFileName |
| Text.LowerAscii | Product.js:32 | no contract; `.toLowerCase()` of the extension, characterised by FileFilterAcceptsImages |
| ProductUpload.FileFilter | Product.js:29-38 | no contract; the filter callback, characterised by FileFilterAcceptsImages and NoExtensionRejected |
| ProductUpload.StoredFilename | Product.js:22 | no contract; the stored name, characterised by StoredFilenameRoundTrip and StoredFilenameInjective |
| ProductUpload.TestIsSubstringSearch | Product.js:30-32 | the regular-expression test holds exactly when jpeg, jpg, png or webp is a substring |
| ProductUpload.ExtNameShape | Product.js:32 | the extension is empty or a '.' followed by no '.' or '/', and it ends the last path component |
| ProductUpload.ExtNameOfFileName | Product.js:32 | a file name other than `..` with a '.' after its first character has the extension from its last '.' |
| ProductUpload.FileFilterAcceptsImages | Product.js:29-38 | a file is accepted if and only if its MIME type and its lower-cased extension each contain an image type; otherwise the error is "Only image files are allowed!" |
| ProductUpload.NoExtensionRejected | Product.js:32-37 | a name without a '.' is refused even when it contains an image type |
| ProductUpload.StoredFilenameRoundTrip | Product.js:22 | the stored name splits at its first '-' into the timestamp and the verbatim original name |
| ProductUpload.StoredFilenameInjective | Product.js:22 | equal stored names come from equal timestamps and original names |
| Text.DecimalString | Product.js:22 | the timestamp's numeral is a non-empty run of digits without a leading zero |
| ProductCreation.RequiredPresent | Product.js:105 | no contract; name, description and foodPreference truthy, characterised by MissingFieldsCheckedFirst |
| ProductCreation.ValidateProduct | Product.js:105-139 | building the product, or its throwing, is reached only with at least one uploaded file; otherwise characterised by MissingFieldsCheckedFirst, NoImageRejected and CreatedProductFields |
| ProductCreation.ParseInt | Product.js:126-127 | no contract; `parseInt`'s string, or None when its ToString throws (any form object, which has no prototype), characterised by ServingConversionThrows, BracketedFieldGives500 and CreatedProductFields |
| ProductCreation.BuildProduct | Product.js:121-139 | no contract; the product document, or None when a `parseInt` throws, characterised by CreatedProductFields, CreatedExactly and ServingConversionThrows |
| ProductCreation.Thrown | Product.js:121-149 | no contract; the exception that reaches the catch block, characterised by ServingConversionThrows and CatchBlockOnlyOnException |
| ProductCreation.CatchBlock | Product.js:149-160 | no contract; unlink all uploads, then 500 with the exception, characterised by CaughtErrorRemovesUploads and CaughtErrorWithMissingFileEscapes |
| ProductCreation.NotesOrEmpty | Product.js:138 | no contract; the notes when truthy, else the empty string, characterised by CreatedProductFields |
| ProductCreation.UnlinkAll | Product.js:152-154 | no contract; the unlink sequence, characterised by UnlinkAllCompletes and UnlinkAllOnlyRemovesListed |
| ProductCreation.CreateProductOutcome | Product.js:102-162 | no contract; the handler's answer and directory afterwards, characterised by the lemmas below |
| ProductCreation.ImageUrls | Product.js:121 | one URL per file, in order, the i-th being "/uploads/" followed by the i-th file's name |
| ProductCreation.UnlinkAllCompletes | Product.js:152-154 | unlinking finishes exactly when the paths are distinct and all on disk, and then removes exactly those paths |
| ProductCreation.UnlinkAllOnlyRemovesListed | Product.js:152-154 | unlinking never adds a path and never changes a path not in the list |
| ProductCreation.MissingFieldsCheckedFirst | Product.js:105-110 | the answer is 400 "Missing required fields" if and only if name, description or foodPreference is falsy, whatever the files |
| ProductCreation.NoImageRejected | Product.js:113-118 | with the fields present, the answer is 400 "At least one product image is required" if and only if there are no files |
| ProductCreation.EarlyRejectionKeepsUploads | Product.js:105-118 | a 400 answer leaves the uploads directory unchanged, so uploaded files stay |
| ProductCreation.CreatedProductFields | Product.js:121-139 | the created product has one image URL per file in order, inStock true exactly for "true", notes or "", the three required fields as sent, and the serving numbers parsed from the ToString of the sent fields |
| ProductCreation.CreatedExactly | Product.js:105-147 | the answer is 201 if and only if the fields are present, a file arrived, both serving fields convert to strings (neither is a form object nor an array holding one) and save succeeds |
| ProductCreation.ServingConversionThrows | Product.js:124-128 | with the checks passed, a serving field whose ToString throws makes the handler throw a conversion error, whatever save would do |
| ProductCreation.BracketedFieldGives500 | Product.js:124-160 | a request whose `servingPerContainer` is a bracketed form object (any keys, e.g. `servingPerContainer[x]=1`) with one stored image answers 500 and removes that image, and only it |
| ProductCreation.CaughtErrorRemovesUploads | Product.js:149-160 | when a conversion or save throws and the uploads are distinct files on disk, the answer is 500 with that exception, every uploaded path is gone and no other path changed |
| ProductCreation.CaughtErrorWithMissingFileEscapes | Product.js:151-155 | when a conversion or save throws and an upload is missing or listed twice, the handler sends no response |
| ProductCreation.CatchBlockOnlyOnException | Product.js:103-160 | without an exception after the checks the directory is unchanged; with one the outcome is the catch block's |
| ProductCreation.OnlyUploadsRemoved | Product.js:102-162 | on every path through the handler only uploaded paths can disappear and none appears |
| ProductCreation.UploadDir.Unlink | Product.js:153 | the path is removed, and the call reports failure exactly when it was absent |
| ProductCreation.RemoveUploaded | Product.js:151-155 | the loop leaves the directory and the completion flag that the unlinking sequence gives |
| ProductCreation.CreateProduct | Product.js:102-162 | the handler's answer and the directory afterwards are those of the handler's specification |

## Left out

- Package GET, PUT and DELETE handlers, the products listing, and the shop service in `Manage_Shop.js`: each is one library call with no decision of its own.
- Schema constraints (`required`, `min: 0`, `enum`, `trim`, defaults, timestamps) and the database write: they run inside `save`, which the model takes as the `SaveResult` parameter.
- `parseInt` of the serving numbers: `ParsedInt` records the string parsed (the ToString of the field), not the number read from it; the throw of that ToString is modelled.
- The 500 messages of exceptions the handlers raise themselves (`Cause` names the exception, not its engine text).
- Upload limits (5 files, 5 MB), writing the files, creating the directory, static serving, `Date.now()`, server start-up, database connection: I/O and library behaviour.
- The multipart field parser (multer with append-field) is library code: the model takes from it that the form body and every object nested in it are created without a prototype, so `Field` reads only own keys and ToString of such an object throws.
- How multer reacts to a rejected file or an exceeded limit (it fails the whole upload before the handler runs): library behaviour.
- Concurrent requests, including racing uploads and filename collisions between requests.
- JsValue.Value: `Num(n)` stands for the double that `JSON.parse` produced from an integer literal; integers are exact, so integers above 2^53 that JavaScript rounds to one double stay distinct, and fractional JSON numbers and infinities are not represented.
- JsValue.StringToNumber: only decimal integer strings are numbers, and they are read exactly, without the rounding to the nearest double that JavaScript applies above 2^53 (so "9007199254740993" compared with 9007199254740992 is greater here and equal in JavaScript); fractions, exponents, hexadecimal, octal or binary prefixes and "Infinity" are read as NaN.
- JsValue.IntString: written as for magnitudes below 10^21; JavaScript switches to exponent form above that.
- JsValue.StringLess: compares characters by code point. JavaScript compares UTF-16 code units, which orders characters outside the Basic Multilingual Plane differently.
- JsValue.Prop: does not model array indices or built-in properties as keys of the handlers' property reads; the keys they read are neither. The built-in `valueOf` and `toString` that `>=` looks up are modelled in JsValue.ToPrimitive.
- Text.LowerAscii: lower-cases only A-Z. No other character lower-cases to one of the letters of jpeg, jpg, png or webp, so the filter's verdict is the same.
- ProductCreation.CreateProduct: `req.body` is a plain map of form fields, as the upload middleware provides it.
