/**
  The decoding vocabulary the record types of the model rely on: the error
  categories a decoder reports, a result type usable with `:-`, and the two
  generic decoders the records are built from (a `String` and a `Vec<T>`).
*/
module Decoding {
  import opened Json

  /** What a decoder was looking for when it met a value of the wrong kind. */
  datatype Expected =
    | AString
    | ASequence
    | AStruct(name: string)
    | AVariantIdentifier
    | AQuotedFloat

  datatype DecodeError =
    | MissingField(field: string)
    | InvalidType(found: Kind, expected: Expected)
    | InvalidValue(text: string, expected: Expected)

  datatype Result<+T> = Ok(value: T) | Err(error: DecodeError) {
    predicate IsFailure() {
      Err?
    }

    function PropagateFailure<U>(): Result<U>
      requires Err?
    {
      Err(error)
    }

    function Extract(): T
      requires Ok?
    {
      value
    }
  }

  /** A `String` is decoded from a JSON string only, character for character. */
  function DecodeString(j: Json): (r: Result<string>)
    ensures r.Ok? <==> j.Str?
    ensures r.Ok? ==> r.value == j.s
    ensures r.Err? ==> r.error == InvalidType(KindOf(j), AString)
  {
    match j
    case Str(s) => Ok(s)
    case _ => Err(InvalidType(KindOf(j), AString))
  }

  /** Index `k` holds the first element that `decode` rejects. */
  ghost predicate IsFirstFailure<T>(items: seq<Json>, decode: Json -> Result<T>, k: int) {
    && 0 <= k < |items|
    && decode(items[k]).Err?
    && forall i :: 0 <= i < k ==> decode(items[i]).Ok?
  }

  /**
    The elements of a sequence decoded one by one, in order: the result has one
    decoded value per element, at the same position, and the first element that
    fails to decode fails the whole sequence with its own error.
  */
  function DecodeEach<T>(items: seq<Json>, decode: Json -> Result<T>): (r: Result<seq<T>>)
    ensures r.Ok? <==> forall i :: 0 <= i < |items| ==> decode(items[i]).Ok?
    ensures r.Ok? ==> |r.value| == |items|
    ensures r.Ok? ==> forall i :: 0 <= i < |items| ==> r.value[i] == decode(items[i]).value
    ensures r.Err? ==> exists k :: IsFirstFailure(items, decode, k) && r.error == decode(items[k]).error
  {
    if items == [] then Ok([])
    else
      match decode(items[0])
      case Err(e) =>
        assert IsFirstFailure(items, decode, 0);
        Err(e)
      case Ok(x) =>
        match DecodeEach(items[1..], decode)
        case Err(e) =>
          assert exists k :: IsFirstFailure(items, decode, k) && e == decode(items[k]).error by {
            var k :| IsFirstFailure(items[1..], decode, k) && e == decode(items[1..][k]).error;
            assert IsFirstFailure(items, decode, k + 1);
          }
          Err(e)
        case Ok(xs) =>
          Ok([x] + xs)
  }

  /** Fail-fast, from the other side: the first element that fails is the one whose error is reported. */
  lemma DecodeEachFailsAt<T>(items: seq<Json>, decode: Json -> Result<T>, k: int)
    requires IsFirstFailure(items, decode, k)
    ensures DecodeEach(items, decode) == Err(decode(items[k]).error)
  {
    var r := DecodeEach(items, decode);
    assert !r.Ok?;
    var k' :| IsFirstFailure(items, decode, k') && r.error == decode(items[k']).error;
    assert k' == k;
  }

  /** A `Vec<T>`: a JSON array whose elements are decoded by `DecodeEach`. */
  function DecodeVec<T>(j: Json, decode: Json -> Result<T>): (r: Result<seq<T>>)
    ensures !j.Arr? ==> r == Err(InvalidType(KindOf(j), ASequence))
    ensures j.Arr? ==> r == DecodeEach(j.items, decode)
  {
    match j
    case Arr(items) => DecodeEach(items, decode)
    case _ => Err(InvalidType(KindOf(j), ASequence))
  }
}
