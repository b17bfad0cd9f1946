/**
 The few pieces of .NET semantics the caption service relies on: references
 that may be null, the exception an extension method raises on a null source,
 `string.IsNullOrEmpty`, the string `+` operator's treatment of null, and the
 LINQ lookups `FirstOrDefault` and `ElementAtOrDefault` over arrays whose
 elements may themselves be null.
 */
module DotNet {

  /** A .NET reference of type T that may be null. */
  datatype Nullable<+T> = Null | Ref(value: T)

  /** The exceptions the modelled code can raise. */
  datatype Exception = ArgumentNullException(paramName: string)

  /** The outcome of a call: a returned value or a thrown exception. */
  datatype Outcome<+T> = Returns(value: T) | Throws(exception: Exception)

  /** `string.IsNullOrEmpty(s)`. */
  predicate IsNullOrEmpty(s: Nullable<string>)
    ensures IsNullOrEmpty(s) <==> s == Null || s == Ref("")
  {
    match s
    case Null => true
    case Ref(v) => |v| == 0
  }

  /** The operand a null string contributes to the string `+` operator: the empty string. */
  function ConcatOperand(s: Nullable<string>): (r: string)
    ensures r == "" <==> IsNullOrEmpty(s)
    ensures !IsNullOrEmpty(s) ==> s == Ref(r)
  {
    match s
    case Null => ""
    case Ref(v) => v
  }

  /** `source.FirstOrDefault()` on a non-null array: its first element, or null when it is empty. */
  function FirstOrDefault<T>(source: seq<Nullable<T>>): (r: Nullable<T>)
    ensures r == ElementAtOrDefault(source, 0)
  {
    if |source| == 0 then Null else source[0]
  }

  /** `source.ElementAtOrDefault(index)` on a non-null array: the element, or null when the index is out of range. */
  function ElementAtOrDefault<T>(source: seq<Nullable<T>>, index: int): (r: Nullable<T>)
    ensures 0 <= index < |source| ==> r == source[index]
    ensures r.Ref? ==> r in source
    ensures !(0 <= index < |source|) ==> r.Null?
  {
    if 0 <= index < |source| then source[index] else Null
  }
}
