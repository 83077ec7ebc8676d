/**
 * One parsed entry of the question list: a JSON object with the keys
 * `question`, `options` (an object from option text to a correctness flag),
 * `success` and `error`. A missing key is `None` / `Missing`.
 */
module QuestionModel {
  import opened Wrappers

  /** The JSON values an option's correctness flag can take. */
  datatype Value = Bool(b: bool) | Int(i: int) | Str(s: string) | Null

  /** Python truthiness, `if v:` */
  predicate Truthy(v: Value) {
    match v
    case Bool(b) => b
    case Int(i) => i != 0
    case Str(s) => s != ""
    case Null => false
  }

  /** Python identity with `True`, `v is True` */
  predicate IsTrue(v: Value) {
    v == Bool(true)
  }

  /** What `q.get("options")` yields. */
  datatype OptionsField = Missing | NotADict | Dict(entries: seq<(string, Value)>)

  datatype Question =
    | NotAnObject
    | Object(question: Option<string>, options: OptionsField, success: Option<string>, error: Option<string>)

  /** The keys of a Python dict are pairwise distinct. */
  predicate DistinctKeys(entries: seq<(string, Value)>) {
    forall i, j :: 0 <= i < j < |entries| ==> entries[i].0 != entries[j].0
  }

  /** Every options object of the question is a dict in this sense. */
  predicate WellFormed(q: Question) {
    q.Object? && q.options.Dict? ==> DistinctKeys(q.options.entries)
  }

  function Keys(entries: seq<(string, Value)>): (ks: seq<string>)
    ensures |ks| == |entries| && forall i :: 0 <= i < |entries| ==> ks[i] == entries[i].0
  {
    seq(|entries|, i requires 0 <= i < |entries| => entries[i].0)
  }

  function Flags(entries: seq<(string, Value)>): (vs: seq<Value>)
    ensures |vs| == |entries| && forall i :: 0 <= i < |entries| ==> vs[i] == entries[i].1
  {
    seq(|entries|, i requires 0 <= i < |entries| => entries[i].1)
  }

  /** `q.get(key, default)` on a string field. */
  function Get(field: Option<string>, default: string): string {
    match field
    case Some(v) => v
    case None => default
  }

  /** Errors the converters raise. */
  datatype Error =
    | KeyError(key: string)          // q["..."] on a missing key
    | TypeError                      // subscripting a value that is not an object
    | AttributeError                 // `.keys()` / `.get()` on a value that is not an object
    | ValueError(message: string)    // raised explicitly by the Moodle builder
}
