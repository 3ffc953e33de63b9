/** The `NSValueTransformer (MTLPredefinedTransformerAdditions)` category:
    ready-made transformers that follow the error-handling protocol. Each is an
    MTLValueTransformer whose blocks leave `*success` alone unless they fail. */
module PredefinedTransformers {
  import opened Wrappers
  import opened Values
  import opened ValueTransformers

  // ---------------------------------------------------------------------------
  // Array mapping

  /** Transforms every element of `xs` with `step` (a full protocol call on the
      inner transformer), stopping at the first element that fails. On failure
      the error pairs that element's index with its own error. An element
      transformed to nil is stored as NSNull, since an array cannot hold nil. */
  function MapElements(step: Option<Value> -> Transformed, xs: seq<Value>)
    : (r: Result<seq<Value>, (nat, Option<TransformError>)>)
    ensures r.Success? <==> forall i :: 0 <= i < |xs| ==> step(Some(xs[i])).success
    ensures r.Success? ==> |r.value| == |xs|
    ensures r.Success? ==> forall i :: 0 <= i < |xs| ==> r.value[i] == NilToNull(step(Some(xs[i])).value)
    ensures r.Failure? ==>
              var (k, e) := r.error;
              k < |xs| && !step(Some(xs[k])).success && e == step(Some(xs[k])).error
              && forall i :: 0 <= i < k ==> step(Some(xs[i])).success
    decreases |xs|
  {
    if |xs| == 0 then Success([])
    else
      var head := step(Some(xs[0]));
      if !head.success then Failure((0, head.error))
      else
        match MapElements(step, xs[1..])
        case Success(rest) =>
          assert forall i :: 1 <= i < |xs| ==> xs[i] == xs[1..][i - 1];
          Success([NilToNull(head.value)] + rest)
        case Failure((k, e)) =>
          assert forall i :: 1 <= i <= k ==> xs[i] == xs[1..][i - 1];
          Failure((k + 1, e))
  }

  /** The block of an array-mapping transformer in one direction. nil is passed
      through; anything other than an array is invalid input. */
  function ArrayMappingBlock(step: Option<Value> -> Transformed): Block {
    (v: Option<Value>, success: bool) =>
      match v
      case None => Transformed(None, success, None)
      case Some(Array(xs)) =>
        (match MapElements(step, xs)
         case Success(ys) => Transformed(Some(Array(ys)), success, None)
         case Failure((k, e)) => Transformed(None, false, Some(InvalidElement(Array(xs), k, e))))
      case Some(other) => Transformed(None, false, Some(InvalidInput(v)))
  }

  /** `+mtl_arrayMappingTransformerWithTransformer:`. The result allows reverse
      transformation exactly when the element transformer does. */
  function ArrayMappingTransformer(inner: Transformer): (t: Transformer)
    ensures AllowsReverseTransformation(t) <==> AllowsReverseTransformation(inner)
  {
    Transformer(
      ArrayMappingBlock(ForwardStep(inner)),
      if AllowsReverseTransformation(inner) then Some(ArrayMappingBlock(ReverseStep(inner))) else None)
  }

  /** One protocol call on the element transformer, in each direction. */
  function ForwardStep(inner: Transformer): Option<Value> -> Transformed {
    (e: Option<Value>) => TransformedValue(inner, e)
  }

  function ReverseStep(inner: Transformer): Option<Value> -> Transformed
    requires AllowsReverseTransformation(inner)
  {
    (e: Option<Value>) => ReverseTransformedValue(inner, e)
  }

  /** The elements an array-mapping transformer produces from xs when every
      element transforms successfully, nil results stored as NSNull. */
  function ElementResults(step: Option<Value> -> Transformed, xs: seq<Value>): seq<Value> {
    seq(|xs|, i requires 0 <= i < |xs| => NilToNull(step(Some(xs[i])).value))
  }

  /** The error reports, as InvalidInput on the whole array, the first element
      whose transformation failed and that element's own error. */
  predicate ReportsFirstFailure(step: Option<Value> -> Transformed, xs: seq<Value>, e: Option<TransformError>) {
    && e.Some? && e.value.InvalidElement? && e.value.collection == Array(xs)
    && e.value.index < |xs|
    && !step(Some(xs[e.value.index])).success
    && e.value.underlying == step(Some(xs[e.value.index])).error
    && forall i :: 0 <= i < e.value.index ==> step(Some(xs[i])).success
  }

  /** Forward: succeeds iff every element does, producing an array of the same
      length element by element; otherwise reports the first failing element. */
  lemma ArrayMappingForward(inner: Transformer, xs: seq<Value>)
    ensures var r := TransformedValue(ArrayMappingTransformer(inner), Some(Array(xs)));
            r.success <==> forall i :: 0 <= i < |xs| ==> TransformedValue(inner, Some(xs[i])).success
    ensures var r := TransformedValue(ArrayMappingTransformer(inner), Some(Array(xs)));
            r.success ==> r.value == Some(Array(ElementResults(ForwardStep(inner), xs)))
    ensures var r := TransformedValue(ArrayMappingTransformer(inner), Some(Array(xs)));
            !r.success ==> ReportsFirstFailure(ForwardStep(inner), xs, r.error)
  {
    var step := ForwardStep(inner);
    var m := MapElements(step, xs);
    if m.Success? {
      assert m.value == ElementResults(step, xs);
    }
  }

  /** Reverse: the element transformer's reverse, element by element. */
  lemma ArrayMappingReverse(inner: Transformer, xs: seq<Value>)
    requires AllowsReverseTransformation(inner)
    ensures var r := ReverseTransformedValue(ArrayMappingTransformer(inner), Some(Array(xs)));
            r.success <==> forall i :: 0 <= i < |xs| ==> ReverseTransformedValue(inner, Some(xs[i])).success
    ensures var r := ReverseTransformedValue(ArrayMappingTransformer(inner), Some(Array(xs)));
            r.success ==> r.value == Some(Array(ElementResults(ReverseStep(inner), xs)))
    ensures var r := ReverseTransformedValue(ArrayMappingTransformer(inner), Some(Array(xs)));
            !r.success ==> ReportsFirstFailure(ReverseStep(inner), xs, r.error)
  {
    var step := ReverseStep(inner);
    var m := MapElements(step, xs);
    if m.Success? {
      assert m.value == ElementResults(step, xs);
    }
  }

  /** nil maps to nil; a value that is not an array is invalid input, in
      either direction. */
  lemma ArrayMappingNonArrays(inner: Transformer, v: Option<Value>)
    requires v.Some? ==> !v.value.Array?
    ensures v.None? ==> TransformedValue(ArrayMappingTransformer(inner), v) == Transformed(None, true, None)
    ensures v.Some? ==> TransformedValue(ArrayMappingTransformer(inner), v)
                        == Transformed(None, false, Some(InvalidInput(v)))
    ensures AllowsReverseTransformation(inner) && v.Some? ==>
              ReverseTransformedValue(ArrayMappingTransformer(inner), v)
              == Transformed(None, false, Some(InvalidInput(v)))
  {
  }

  // ---------------------------------------------------------------------------
  // Value mapping

  /** An NSDictionary with arbitrary object keys, in enumeration order. Keys
      and objects are compared with `-isEqual:`. */
  type Entries = seq<(Value, Value)>

  /** No two keys are equal, as in any NSDictionary. */
  predicate DistinctKeys(d: Entries) {
    forall i, j :: 0 <= i < j < |d| ==> !IsEqual(d[i].0, d[j].0)
  }

  /** No two objects are equal: the mapping can be read backwards. */
  predicate DistinctValues(d: Entries) {
    forall i, j :: 0 <= i < j < |d| ==> !IsEqual(d[i].1, d[j].1)
  }

  /** `objectForKey:`: the object stored under a key equal to k. */
  function ObjectForKey(d: Entries, k: Value): (r: Option<Value>)
    ensures r.None? <==> forall i :: 0 <= i < |d| ==> !IsEqual(d[i].0, k)
    ensures r.Some? ==> exists i :: 0 <= i < |d| && IsEqual(d[i].0, k) && d[i].1 == r.value
    decreases |d|
  {
    if |d| == 0 then None
    else if IsEqual(d[0].0, k) then Some(d[0].1)
    else
      var r := ObjectForKey(d[1..], k);
      assert forall i :: 1 <= i < |d| ==> d[i] == d[1..][i - 1];
      r
  }

  /** The first key, in enumeration order, whose object is equal to v. */
  function KeyForObject(d: Entries, v: Value): (r: Option<Value>)
    ensures r.None? <==> forall i :: 0 <= i < |d| ==> !IsEqual(d[i].1, v)
    ensures r.Some? ==> exists i :: 0 <= i < |d| && d[i].0 == r.value && IsEqual(d[i].1, v)
    decreases |d|
  {
    if |d| == 0 then None
    else if IsEqual(d[0].1, v) then Some(d[0].0)
    else
      var r := KeyForObject(d[1..], v);
      assert forall i :: 1 <= i < |d| ==> d[i] == d[1..][i - 1];
      r
  }

  /** `+mtl_valueMappingTransformerWithDictionary:defaultValue:reverseDefaultValue:`.
      Forward maps a key to its object, reverse maps an object to a key; each
      direction falls back to its own default, and neither ever fails. nil
      matches no key and no object. */
  function ValueMappingTransformer(d: Entries, defaultValue: Option<Value>, reverseDefaultValue: Option<Value>)
    : (t: Transformer)
    ensures AllowsReverseTransformation(t)
  {
    Transformer(
      (v: Option<Value>, success: bool) =>
        var found := if v.Some? then ObjectForKey(d, v.value) else None;
        Transformed(if found.Some? then found else defaultValue, success, None),
      Some((v: Option<Value>, success: bool) =>
        var found := if v.Some? then KeyForObject(d, v.value) else None;
        Transformed(if found.Some? then found else reverseDefaultValue, success, None)))
  }

  /** Forward: the object under the key, or the default value; never an error. */
  lemma ValueMappingForward(d: Entries, defaultValue: Option<Value>, reverseDefaultValue: Option<Value>, k: Value)
    ensures var r := TransformedValue(ValueMappingTransformer(d, defaultValue, reverseDefaultValue), Some(k));
            && r.success && r.error.None?
            && ((forall i :: 0 <= i < |d| ==> !IsEqual(d[i].0, k)) ==> r.value == defaultValue)
            && ((exists i :: 0 <= i < |d| && IsEqual(d[i].0, k)) ==>
                  r.value.Some? && exists j :: 0 <= j < |d| && IsEqual(d[j].0, k) && d[j].1 == r.value.value)
  {
  }

  /** Forward on a dictionary: exactly the object stored under the key. */
  lemma ValueMappingForwardEntry(d: Entries, defaultValue: Option<Value>, reverseDefaultValue: Option<Value>, i: nat)
    requires DistinctKeys(d)
    requires i < |d|
    ensures TransformedValue(ValueMappingTransformer(d, defaultValue, reverseDefaultValue), Some(d[i].0))
            == Transformed(Some(d[i].1), true, None)
  {
    var r := ObjectForKey(d, d[i].0);
    var j :| 0 <= j < |d| && IsEqual(d[j].0, d[i].0) && d[j].1 == r.value;
    assert j == i;
  }

  /** Reverse: a key whose object equals the input, or the reverse default
      value; never an error. */
  lemma ValueMappingReverse(d: Entries, defaultValue: Option<Value>, reverseDefaultValue: Option<Value>, v: Value)
    ensures var r := ReverseTransformedValue(ValueMappingTransformer(d, defaultValue, reverseDefaultValue), Some(v));
            && r.success && r.error.None?
            && ((forall i :: 0 <= i < |d| ==> !IsEqual(d[i].1, v)) ==> r.value == reverseDefaultValue)
            && ((exists i :: 0 <= i < |d| && IsEqual(d[i].1, v)) ==>
                  r.value.Some? && exists j :: 0 <= j < |d| && d[j].0 == r.value.value && IsEqual(d[j].1, v))
  {
  }

  /** nil maps to the default value of each direction. */
  lemma ValueMappingNil(d: Entries, defaultValue: Option<Value>, reverseDefaultValue: Option<Value>)
    ensures TransformedValue(ValueMappingTransformer(d, defaultValue, reverseDefaultValue), None)
            == Transformed(defaultValue, true, None)
    ensures ReverseTransformedValue(ValueMappingTransformer(d, defaultValue, reverseDefaultValue), None)
            == Transformed(reverseDefaultValue, true, None)
  {
  }

  /** When keys and objects are both distinct, reverse undoes forward for every key. */
  lemma ValueMappingRoundTrip(d: Entries, defaultValue: Option<Value>, reverseDefaultValue: Option<Value>, i: nat)
    requires DistinctKeys(d) && DistinctValues(d)
    requires i < |d|
    ensures var t := ValueMappingTransformer(d, defaultValue, reverseDefaultValue);
            ReverseTransformedValue(t, TransformedValue(t, Some(d[i].0)).value) == Transformed(Some(d[i].0), true, None)
  {
    ValueMappingForwardEntry(d, defaultValue, reverseDefaultValue, i);
    var r := KeyForObject(d, d[i].1);
    var j :| 0 <= j < |d| && d[j].0 == r.value && IsEqual(d[j].1, d[i].1);
    assert j == i;
  }

  // ---------------------------------------------------------------------------
  // Class validation

  /** `+mtl_validatingTransformerForClass:`: a forward-only transformer that
      passes a member of `cls` (or nil) through and reports anything else as
      invalid input. */
  function ValidatingTransformerForClass(cls: ValueClass): (t: Transformer)
    ensures !AllowsReverseTransformation(t)
    ensures forall x :: IsKindOfClass(x, cls) ==> TransformedValue(t, Some(x)) == Transformed(Some(x), true, None)
    ensures forall x :: !IsKindOfClass(x, cls) ==>
              TransformedValue(t, Some(x)) == Transformed(None, false, Some(InvalidInput(Some(x))))
    ensures TransformedValue(t, None) == Transformed(None, true, None)
  {
    TransformerUsingForwardBlock((v: Option<Value>, success: bool) =>
      if v.None? || IsKindOfClass(v.value, cls) then Transformed(v, success, None)
      else Transformed(None, false, Some(InvalidInput(v))))
  }
}

module PredefinedTransformerExamples {
  import opened Wrappers
  import opened Values
  import opened ValueTransformers
  import opened PredefinedTransformers

  /** The enum example of the value-mapping transformer's documentation, with
      EnumDataTypeUndefined, EnumDataTypeFoo and EnumDataTypeBar as 0, 1 and 2. */
  lemma EnumMappingExample()
    ensures var t := ValueMappingTransformer([(Str("foo"), Number(1)), (Str("bar"), Number(2))],
                                             Some(Number(0)), Some(Str("undefined")));
            && TransformedValue(t, Some(Str("foo"))) == Transformed(Some(Number(1)), true, None)
            && TransformedValue(t, Some(Str("baz"))) == Transformed(Some(Number(0)), true, None)
            && ReverseTransformedValue(t, Some(Number(2))) == Transformed(Some(Str("bar")), true, None)
            && ReverseTransformedValue(t, Some(Number(3))) == Transformed(Some(Str("undefined")), true, None)
  {
    var d := [(Str("foo"), Number(1)), (Str("bar"), Number(2))];
    assert d[1..][1..] == [];
  }

  /** A dictionary keyed by @1 answers for @YES in both directions. */
  lemma EqualNumbersExample()
    ensures var t := ValueMappingTransformer([(Number(1), Str("one"))], None, None);
            && TransformedValue(t, Some(Bool(true))) == Transformed(Some(Str("one")), true, None)
            && ReverseTransformedValue(t, Some(Str("one"))) == Transformed(Some(Number(1)), true, None)
            && TransformedValue(t, Some(Str("1"))) == Transformed(None, true, None)
  {
    assert IsEqual(Number(1), Bool(true));
  }

  /** Mapping a string-validating transformer over [valid, invalid] fails at
      index 1 with the element's InvalidInput error. */
  lemma ArrayOfValidatedStringsExample()
    ensures var t := ArrayMappingTransformer(ValidatingTransformerForClass(NSStringClass));
            TransformedValue(t, Some(Array([Str("ok"), Number(7)])))
            == Transformed(None, false, Some(InvalidElement(Array([Str("ok"), Number(7)]), 1,
                                                            Some(InvalidInput(Some(Number(7)))))))
  {
    var inner := ValidatingTransformerForClass(NSStringClass);
    var xs := [Str("ok"), Number(7)];
    assert TransformedValue(inner, Some(xs[0])).success;
    assert !TransformedValue(inner, Some(xs[1])).success;
    ArrayMappingForward(inner, xs);
  }
}
