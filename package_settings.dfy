/**
 * POST /api/package-settings: the presence check on the four request fields, the scan of
 * `orderValueRanges` for an inverted range, and the record handed to the document store.
 * The store's `save` (which runs the schema's validators) is a parameter of the model.
 */
module PackageSettings {
  import opened Wrappers
  import opened JsValue

  const MissingFieldsMessage := "All fields are required"
  const InvertedRangeMessage := "Maximum order value must be greater than minimum order value"

  /** The body keys the handler reads; every other key is ignored. */
  const RequestFields: set<string> :=
    {"deliveryTime", "deliveryRadius", "freeDeliveryRadius", "orderValueRanges"}

  /** The document built from the request: exactly the four destructured values. */
  datatype PackageRecord = PackageRecord(
    deliveryTime: Value,
    deliveryRadius: Value,
    freeDeliveryRadius: Value,
    orderValueRanges: Value)

  /** Why the handler answers 500: an exception thrown by the handler itself, or by `save`. */
  datatype Cause =
    | BodyNotObject                // destructuring a nullish body
    | RangesNotIterable            // `for..of` over a truthy value that is not iterable
    | RangeNotObject(index: nat)   // reading `minOrderValue` of a nullish range
    | BoundNotConvertible(index: nat) // `>=` on a bound object with an own `toString` key
    | SaveFailed(message: string)  // validation or database error raised by `save`

  datatype Response =
    | Created(record: PackageRecord)
    | BadRequest(message: string)
    | ServerError(cause: Cause)

  /** The outcome of `packageSettings.save()`. */
  datatype SaveResult = Saved | SaveError(message: string)

  function Status(r: Response): int {
    match r
    case Created(_) => 201
    case BadRequest(_) => 400
    case ServerError(_) => 500
  }

  /** `const { deliveryTime, deliveryRadius, freeDeliveryRadius, orderValueRanges } = body`. */
  function Destructure(body: Value): PackageRecord
    requires !Nullish(body)
  {
    PackageRecord(
      Prop(body, "deliveryTime"),
      Prop(body, "deliveryRadius"),
      Prop(body, "freeDeliveryRadius"),
      Prop(body, "orderValueRanges"))
  }

  /** The presence check: every field is truthy. */
  predicate AllPresent(f: PackageRecord) {
    Truthy(f.deliveryTime) && Truthy(f.deliveryRadius) && Truthy(f.freeDeliveryRadius)
    && Truthy(f.orderValueRanges)
  }

  /** The elements `for..of` visits: an array's elements, a string's characters; None throws. */
  function Iterate(v: Value): Option<seq<Value>> {
    match v
    case Arr(es) => Some(es)
    case Str(s) => Some(seq(|s|, i requires 0 <= i < |s| => Str([s[i]])))
    case _ => None
  }

  /** What one iteration of the range loop does with its element. */
  datatype RangeCheck = Ordered | Inverted | Unreadable | Unconvertible

  function CheckRange(range: Value): RangeCheck {
    if Nullish(range) then Unreadable
    else
      match GreaterOrEqual(Prop(range, "minOrderValue"), Prop(range, "maxOrderValue"))
      case None => Unconvertible
      case Some(inverted) => if inverted then Inverted else Ordered
  }

  /** Where the range loop leaves: after the last element, or at the first one that is not `Ordered`. */
  datatype ScanResult = AllOrdered | StoppedAt(index: nat, check: RangeCheck)

  function FirstFailure(ranges: seq<Value>): ScanResult {
    if ranges == [] then AllOrdered
    else if CheckRange(ranges[0]) != Ordered then StoppedAt(0, CheckRange(ranges[0]))
    else
      match FirstFailure(ranges[1..])
      case AllOrdered => AllOrdered
      case StoppedAt(i, c) => StoppedAt(i + 1, c)
  }

  /** The loop's exit, stated without recursion. */
  ghost predicate IsFirstFailure(ranges: seq<Value>, r: ScanResult) {
    match r
    case AllOrdered => forall j :: 0 <= j < |ranges| ==> CheckRange(ranges[j]) == Ordered
    case StoppedAt(i, c) =>
      i < |ranges| && c != Ordered && CheckRange(ranges[i]) == c
      && forall j :: 0 <= j < i ==> CheckRange(ranges[j]) == Ordered
  }

  lemma {:induction false} FirstFailureIsFirst(ranges: seq<Value>)
    ensures IsFirstFailure(ranges, FirstFailure(ranges))
  {
    if ranges != [] && CheckRange(ranges[0]) == Ordered {
      FirstFailureIsFirst(ranges[1..]);
      match FirstFailure(ranges[1..])
      case AllOrdered =>
        forall j | 0 <= j < |ranges| ensures CheckRange(ranges[j]) == Ordered {
          if j > 0 { assert ranges[j] == ranges[1..][j - 1]; }
        }
      case StoppedAt(i, c) =>
        assert ranges[i + 1] == ranges[1..][i];
        forall j | 0 <= j < i + 1 ensures CheckRange(ranges[j]) == Ordered {
          if j > 0 { assert ranges[j] == ranges[1..][j - 1]; }
        }
    }
  }

  /** The description is complete: only one exit satisfies it. */
  lemma FirstFailureUnique(ranges: seq<Value>, r: ScanResult)
    requires IsFirstFailure(ranges, r)
    ensures r == FirstFailure(ranges)
  {
    FirstFailureIsFirst(ranges);
  }

  /** The `for (let range of orderValueRanges)` loop with its early exit. */
  method ScanRanges(ranges: seq<Value>) returns (r: ScanResult)
    ensures IsFirstFailure(ranges, r)
    ensures r == FirstFailure(ranges)
  {
    var i := 0;
    while i < |ranges|
      invariant 0 <= i <= |ranges|
      invariant forall j :: 0 <= j < i ==> CheckRange(ranges[j]) == Ordered
    {
      var check := CheckRange(ranges[i]);
      if check != Ordered {
        r := StoppedAt(i, check);
        FirstFailureUnique(ranges, r);
        return;
      }
      i := i + 1;
    }
    r := AllOrdered;
    FirstFailureUnique(ranges, r);
  }

  /** The handler's answer to a request body, given what `save` does. */
  function CreatePackage(body: Value, save: SaveResult): Response {
    if Nullish(body) then ServerError(BodyNotObject)
    else
      var f := Destructure(body);
      if !AllPresent(f) then BadRequest(MissingFieldsMessage)
      else
        match Iterate(f.orderValueRanges)
        case None => ServerError(RangesNotIterable)
        case Some(ranges) =>
          match FirstFailure(ranges)
          case StoppedAt(i, Inverted) => BadRequest(InvertedRangeMessage)
          case StoppedAt(i, Unconvertible) => ServerError(BoundNotConvertible(i))
          case StoppedAt(i, _) => ServerError(RangeNotObject(i))
          case AllOrdered =>
            match save
            case Saved => Created(f)
            case SaveError(m) => ServerError(SaveFailed(m))
  }

  /** The ranges of an accepted body reached the end of the loop with every range ordered. */
  ghost predicate RangesOrdered(body: Value)
    requires !Nullish(body)
  {
    var ranges := Iterate(Destructure(body).orderValueRanges);
    ranges.Some? && forall j :: 0 <= j < |ranges.value| ==> CheckRange(ranges.value[j]) == Ordered
  }

  /** A falsy field (undefined, null, false, 0, NaN, "") is answered 400 "All fields are required", and only then. */
  lemma MissingFieldRejected(body: Value, save: SaveResult)
    requires !Nullish(body)
    ensures CreatePackage(body, save) == BadRequest(MissingFieldsMessage)
            <==> !AllPresent(Destructure(body))
  {
  }

  /** A delivery time or radius of 0 counts as missing, though the schema allows 0. */
  lemma ZeroCountsAsMissing(body: Value, key: string, save: SaveResult)
    requires body.Obj? && key in RequestFields && key in body.props && body.props[key] == Num(0)
    ensures CreatePackage(body, save) == BadRequest(MissingFieldsMessage)
  {
  }

  /** When a field is missing the range loop never runs: its message cannot appear. */
  lemma PresenceCheckFirst(body: Value, save: SaveResult)
    requires !Nullish(body) && !AllPresent(Destructure(body))
    ensures CreatePackage(body, save) != BadRequest(InvertedRangeMessage)
    ensures Status(CreatePackage(body, save)) == 400
  {
  }

  /**
   * The inverted-range 400 is given exactly when all four fields are present, the ranges can
   * be iterated, and some range has `minOrderValue >= maxOrderValue` with every earlier range
   * ordered (a nullish range, or a bound that cannot be converted, before it raises a 500 first).
   */
  lemma InvertedRangeRejected(body: Value, save: SaveResult)
    ensures CreatePackage(body, save) == BadRequest(InvertedRangeMessage)
            <==> !Nullish(body) && AllPresent(Destructure(body))
                 && Iterate(Destructure(body).orderValueRanges).Some?
                 && var ranges := Iterate(Destructure(body).orderValueRanges).value;
                    exists i :: 0 <= i < |ranges| && CheckRange(ranges[i]) == Inverted
                                && forall j :: 0 <= j < i ==> CheckRange(ranges[j]) == Ordered
  {
    assert MissingFieldsMessage != InvertedRangeMessage by {
      assert |MissingFieldsMessage| != |InvertedRangeMessage|;
    }
    if !Nullish(body) && AllPresent(Destructure(body))
       && Iterate(Destructure(body).orderValueRanges).Some?
    {
      var ranges := Iterate(Destructure(body).orderValueRanges).value;
      FirstFailureIsFirst(ranges);
      if exists i :: 0 <= i < |ranges| && CheckRange(ranges[i]) == Inverted
                     && forall j :: 0 <= j < i ==> CheckRange(ranges[j]) == Ordered
      {
        var i :| 0 <= i < |ranges| && CheckRange(ranges[i]) == Inverted
                 && forall j :: 0 <= j < i ==> CheckRange(ranges[j]) == Ordered;
        FirstFailureUnique(ranges, StoppedAt(i, Inverted));
      }
    }
  }

  /** A range object whose bounds `>=` can convert. */
  predicate Comparable(range: Value) {
    !Nullish(range) && GreaterOrEqual(Prop(range, "minOrderValue"), Prop(range, "maxOrderValue")).Some?
  }

  /** A range with `minOrderValue >= maxOrderValue`. */
  predicate BoundsInverted(range: Value) {
    !Nullish(range) && GreaterOrEqual(Prop(range, "minOrderValue"), Prop(range, "maxOrderValue")) == Some(true)
  }

  /** On a range whose bounds convert, one iteration is `Inverted` or `Ordered` as `>=` decides. */
  lemma CheckComparableRange(range: Value)
    requires Comparable(range)
    ensures CheckRange(range) == Inverted <==> BoundsInverted(range)
    ensures CheckRange(range) == Ordered <==> !BoundsInverted(range)
  {
  }

  /** Among ranges whose bounds convert, the loop stops at an inverted range exactly when one exists. */
  lemma StopsAtInvertedAmongComparable(ranges: seq<Value>)
    requires forall j :: 0 <= j < |ranges| ==> Comparable(ranges[j])
    ensures (FirstFailure(ranges).StoppedAt? && FirstFailure(ranges).check == Inverted)
            <==> exists i :: 0 <= i < |ranges| && BoundsInverted(ranges[i])
  {
    FirstFailureIsFirst(ranges);
    forall j | 0 <= j < |ranges|
      ensures CheckRange(ranges[j]) == Inverted <==> BoundsInverted(ranges[j])
      ensures CheckRange(ranges[j]) == Ordered <==> !BoundsInverted(ranges[j])
    {
      CheckComparableRange(ranges[j]);
    }
  }

  /**
   * For an array of range objects (no element null or undefined) whose bounds `>=` can convert,
   * the inverted-range 400 is given exactly when some range has `minOrderValue >= maxOrderValue`,
   * equality included.
   */
  lemma InvertedRangeAmongObjects(body: Value, save: SaveResult)
    requires !Nullish(body) && AllPresent(Destructure(body))
    requires Destructure(body).orderValueRanges.Arr?
    requires forall j :: 0 <= j < |Destructure(body).orderValueRanges.elems| ==>
               Comparable(Destructure(body).orderValueRanges.elems[j])
    ensures var ranges := Destructure(body).orderValueRanges.elems;
            CreatePackage(body, save) == BadRequest(InvertedRangeMessage)
            <==> exists i :: 0 <= i < |ranges| && BoundsInverted(ranges[i])
  {
    StopsAtInvertedAmongComparable(Destructure(body).orderValueRanges.elems);
  }

  /** An empty `orderValueRanges` array is truthy and has nothing to check: the body is accepted. */
  lemma EmptyRangesAccepted(body: Value)
    requires !Nullish(body) && AllPresent(Destructure(body))
    requires Destructure(body).orderValueRanges == Arr([])
    ensures CreatePackage(body, Saved) == Created(Destructure(body))
  {
  }

  /**
   * An accepted body had all four fields present, was saved, and every range in it passed the
   * loop; a range whose bounds are numbers has `minOrderValue < maxOrderValue`.
   */
  lemma AcceptedRangesOrdered(body: Value, save: SaveResult)
    requires CreatePackage(body, save).Created?
    ensures !Nullish(body) && AllPresent(Destructure(body)) && save == Saved
    ensures RangesOrdered(body)
    ensures Status(CreatePackage(body, save)) == 201
    ensures forall r, lo, hi :: Destructure(body).orderValueRanges.Arr?
              && r in Destructure(body).orderValueRanges.elems
              && r.Obj? && "minOrderValue" in r.props && "maxOrderValue" in r.props
              && r.props["minOrderValue"] == Num(lo) && r.props["maxOrderValue"] == Num(hi)
              ==> lo < hi
  {
    var ranges := Iterate(Destructure(body).orderValueRanges).value;
    FirstFailureIsFirst(ranges);
    forall r, lo, hi | Destructure(body).orderValueRanges.Arr?
              && r in Destructure(body).orderValueRanges.elems
              && r.Obj? && "minOrderValue" in r.props && "maxOrderValue" in r.props
              && r.props["minOrderValue"] == Num(lo) && r.props["maxOrderValue"] == Num(hi)
      ensures lo < hi
    {
      var j :| 0 <= j < |ranges| && ranges[j] == r;
      assert CheckRange(r) == Ordered;
      NumberComparison(lo, hi);
    }
  }

  /** The created record holds the four request values unchanged. */
  lemma RecordIsRequestFields(body: Value, save: SaveResult)
    requires CreatePackage(body, save).Created?
    ensures body.Obj?
    ensures var r := CreatePackage(body, save).record;
            r.deliveryTime == body.props["deliveryTime"]
            && r.deliveryRadius == body.props["deliveryRadius"]
            && r.freeDeliveryRadius == body.props["freeDeliveryRadius"]
            && r.orderValueRanges == body.props["orderValueRanges"]
  {
  }

  /** Body keys other than the four request fields have no influence on the answer. */
  lemma OtherKeysIgnored(props: map<string, Value>, save: SaveResult)
    ensures CreatePackage(Obj(props), save)
            == CreatePackage(Obj(map k | k in props && k in RequestFields :: props[k]), save)
  {
    var kept := Obj(map k | k in props && k in RequestFields :: props[k]);
    assert Destructure(Obj(props)) == Destructure(kept);
  }

  /** A body whose four fields are present, with one range made of the given bounds. */
  function OneRangeBody(lo: Value, hi: Value): Value {
    Obj(map[
      "deliveryTime" := Num(30),
      "deliveryRadius" := Num(5),
      "freeDeliveryRadius" := Num(2),
      "orderValueRanges" := Arr([Obj(map["minOrderValue" := lo, "maxOrderValue" := hi, "deliveryCharge" := Num(1)])])])
  }

  /**
   * Bounds sent as strings compare as text: a range from "10" to "5" passes the loop and the
   * body goes to `save`, which stores a range whose numeric minimum exceeds its maximum.
   */
  lemma TextBoundsPassAsText()
    ensures CreatePackage(OneRangeBody(Str("10"), Str("5")), Saved).Created?
  {
    StringsCompareAsText();
    var body := OneRangeBody(Str("10"), Str("5"));
    var range := Destructure(body).orderValueRanges.elems[0];
    assert Prop(range, "minOrderValue") == Str("10");
    assert Prop(range, "maxOrderValue") == Str("5");
    assert CheckRange(range) == Ordered;
  }

  /** A single range whose bounds `>=` cannot convert gives 500, whatever `save` does. */
  lemma UnconvertibleRangeGives500(lo: Value, hi: Value, save: SaveResult)
    requires GreaterOrEqual(lo, hi).None?
    ensures CreatePackage(OneRangeBody(lo, hi), save) == ServerError(BoundNotConvertible(0))
  {
    var range := Destructure(OneRangeBody(lo, hi)).orderValueRanges.elems[0];
    assert Prop(range, "minOrderValue") == lo && Prop(range, "maxOrderValue") == hi;
    assert CheckRange(range) == Unconvertible;
  }

  /** A bound object with an own `toString` key makes `>=` throw: the answer is 500, on either bound. */
  lemma OwnToStringBoundGives500(m: map<string, Value>, other: Value, save: SaveResult)
    requires "toString" in m
    ensures CreatePackage(OneRangeBody(Obj(m), other), save) == ServerError(BoundNotConvertible(0))
    ensures CreatePackage(OneRangeBody(other, Obj(m)), save) == ServerError(BoundNotConvertible(0))
  {
    OwnToStringThrows(m, other);
    UnconvertibleRangeGives500(Obj(m), other, save);
    UnconvertibleRangeGives500(other, Obj(m), save);
  }

  /** Equal bounds count as inverted: `min >= max` holds, so the answer is 400 whatever `save` does. */
  lemma EqualBoundsRejected(n: int, save: SaveResult)
    ensures CreatePackage(OneRangeBody(Num(n), Num(n)), save) == BadRequest(InvertedRangeMessage)
  {
    var body := OneRangeBody(Num(n), Num(n));
    var range := Destructure(body).orderValueRanges.elems[0];
    assert Prop(range, "minOrderValue") == Num(n);
    assert Prop(range, "maxOrderValue") == Num(n);
    NumberComparison(n, n);
    assert CheckRange(range) == Inverted;
  }
}
