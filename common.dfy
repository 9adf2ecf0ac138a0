/** Shared vocabulary: optional values and the slice of JavaScript values the
    comparators, the search components and the playlist hook look at. */
module Common {

  /** `T | null | undefined` in the source. */
  datatype Option<+T> = None | Some(value: T) {
    /** The `??` operator: the wrapped value, or `default` for null/undefined. */
    function GetOr(default: T): (r: T)
      ensures Some? ==> r == value
      ensures None? ==> r == default
    {
      match this
      case Some(v) => v
      case None => default
    }
  }

  /** A JavaScript value as far as the core distinguishes them. `Null` stands
      for both `null` and `undefined`; numbers are integers (every number the
      core compares is a year, a sequence or a version). */
  datatype Value = Null | Bool(b: bool) | Num(n: int) | Str(s: string)

  /** JavaScript falsiness: `null`, `undefined`, `false`, `0` and `""`. */
  predicate Falsy(v: Value) {
    v.Null? || v == Bool(false) || v == Num(0) || v == Str("")
  }

  /** Truthiness of an optional string such as `searchQuery` or
      `filter.firstLetter`: absent and empty are both falsy. */
  predicate TruthyString(q: Option<string>) {
    q.Some? && q.value != ""
  }

  function StrOrNull(o: Option<string>): (v: Value)
    ensures o.Some? <==> v.Str?
    ensures o.Some? ==> v == Str(o.value)
  {
    match o
    case Some(s) => Str(s)
    case None => Null
  }

  function NumOrNull(o: Option<int>): (v: Value)
    ensures o.Some? <==> v.Num?
    ensures o.Some? ==> v == Num(o.value)
  {
    match o
    case Some(n) => Num(n)
    case None => Null
  }
}
