/** The Foundation objects that flow through the mapping layer, as produced by a
    JSON decoder: NSNull, NSNumber (integers and booleans), NSString, NSArray and
    NSDictionary with string keys. A nil object pointer is not a `Value`; it is
    `Option.None` wherever an object may be nil. */
module Values {
  import opened Wrappers

  datatype Value =
    | Null                                 // the NSNull singleton
    | Bool(b: bool)                        // an NSNumber created from a BOOL
    | Number(n: int)                       // an NSNumber holding an integer
    | Str(s: string)                       // an NSString
    | Array(elements: seq<Value>)          // an NSArray
    | Dictionary(entries: map<string, Value>)  // an NSDictionary keyed by strings

  /** The Foundation classes a `Value` can be an instance of. */
  datatype ValueClass =
    | NSObjectClass
    | NSNullClass
    | NSNumberClass
    | NSStringClass
    | NSArrayClass
    | NSDictionaryClass

  /** The concrete class of a value; booleans are boxed as NSNumber. */
  function ClassOf(v: Value): ValueClass {
    match v
    case Null => NSNullClass
    case Bool(_) => NSNumberClass
    case Number(_) => NSNumberClass
    case Str(_) => NSStringClass
    case Array(_) => NSArrayClass
    case Dictionary(_) => NSDictionaryClass
  }

  /** `-isKindOfClass:`: every value is an NSObject, and otherwise an instance
      of exactly its own class (the Foundation classes modelled here do not
      subclass each other). */
  function IsKindOfClass(v: Value, cls: ValueClass): (b: bool)
    ensures cls == NSObjectClass ==> b
    ensures cls == ClassOf(v) ==> b
    ensures b && cls != NSObjectClass ==> ClassOf(v) == cls
  {
    cls == NSObjectClass || ClassOf(v) == cls
  }

  /** The content `-isEqual:` compares. An NSNumber created from a BOOL holds 0
      or 1, so @YES equals @1; arrays and dictionaries compare their members
      the same way. */
  function Normalized(v: Value): (r: Value)
    ensures !r.Bool?
    ensures ClassOf(r) == ClassOf(v)
    ensures v.Bool? ==> r == Number(if v.b then 1 else 0)
    ensures v.Null? || v.Number? || v.Str? ==> r == v
    ensures v.Array? ==> |r.elements| == |v.elements|
    ensures v.Dictionary? ==> r.entries.Keys == v.entries.Keys
  {
    match v
    case Bool(b) => Number(if b then 1 else 0)
    case Array(xs) => Array(seq(|xs|, i requires 0 <= i < |xs| => Normalized(xs[i])))
    case Dictionary(m) => Dictionary(map k | k in m :: Normalized(m[k]))
    case _ => v
  }

  /** `-isEqual:`: identical values are equal, values of different classes
      never are, and a BOOL equals the integer 0 or 1 it stands for. */
  function IsEqual(a: Value, b: Value): (e: bool)
    ensures a == b ==> e
    ensures ClassOf(a) != ClassOf(b) ==> !e
    ensures a.Bool? && b.Number? ==> (e <==> b.n == if a.b then 1 else 0)
    ensures a.Str? ==> (e <==> a == b)
  {
    Normalized(a) == Normalized(b)
  }

  /** `-[NSString length]`: the number of UTF-16 code units. A character outside
      the Basic Multilingual Plane is a surrogate pair and counts twice. */
  function Utf16Length(s: string): (n: nat)
    ensures |s| <= n <= 2 * |s|
    ensures n == |s| <==> forall i :: 0 <= i < |s| ==> s[i] as int < 0x1_0000
    decreases |s|
  {
    if |s| == 0 then 0
    else
      var rest := Utf16Length(s[1..]);
      assert forall i :: 1 <= i < |s| ==> s[i] == s[1..][i - 1];
      (if s[0] as int < 0x1_0000 then 1 else 2) + rest
  }

  /** The conversion applied wherever NSNull stands for nil. */
  function NullToNil(v: Value): (r: Option<Value>)
    ensures r.None? <==> v == Null
    ensures r.Some? ==> r.value == v
  {
    if v == Null then None else Some(v)
  }

  /** The converse: nil is represented by NSNull inside collections. */
  function NilToNull(v: Option<Value>): (r: Value)
    ensures r == Null <==> v.None? || v == Some(Null)
    ensures v.Some? ==> r == v.value
  {
    v.GetOr(Null)
  }
}
