/** `MTLValueTransformer` and the `MTLTransformerErrorHandling` protocol: value
    transformers that report, besides the transformed value, whether the
    transformation succeeded and the error that made it fail. A transformer is
    a forward block and, when reverse transformation is allowed, a reverse
    block. */
module ValueTransformers {
  import opened Wrappers
  import opened Values

  /** Errors a transformer reports. The first two are in
      MTLTransformerErrorHandlingErrorDomain with the InvalidInput code and carry
      the offending input under MTLTransformerErrorHandlingInputValueErrorKey. */
  datatype TransformError =
    | InvalidInput(input: Option<Value>)
      // an element of an array input could not be transformed; `underlying`
      // is the element's own error
    | InvalidElement(collection: Value, index: nat, underlying: Option<TransformError>)
      // any other error a caller-supplied block chooses to report
    | BlockError(domain: string, code: int)

  /** What one transformation call hands back: the value (possibly nil), the
      final state of the `*success` flag, and the error, if one was set. */
  datatype Transformed = Transformed(value: Option<Value>, success: bool, error: Option<TransformError>)

  /** `MTLValueTransformerBlock`: given the value and the incoming state of
      `*success`, the block returns its result together with the state it left
      `*success` in and the error it set. */
  type Block = (Option<Value>, bool) -> Transformed

  /** An MTLValueTransformer. `reverse` is None when reverse transformation is
      not allowed. */
  datatype Transformer = Transformer(forward: Block, reverse: Option<Block>)

  /** `+allowsReverseTransformation`. */
  predicate AllowsReverseTransformation(t: Transformer) {
    t.reverse.Some?
  }

  /** The block leaves `*success` as it found it for input v. */
  predicate KeepsSuccessFlag(b: Block, v: Option<Value>) {
    forall s: bool {:trigger b(v, s)} :: b(v, s).success == s
  }

  /** `-transformedValue:success:error:`. The block is always called with
      `*success` initialised to YES, so a block that never clears it reports
      success. */
  function TransformedValue(t: Transformer, v: Option<Value>): (r: Transformed)
    ensures KeepsSuccessFlag(t.forward, v) ==> r.success
  {
    t.forward(v, true)
  }

  /** `-reverseTransformedValue:success:error:`. Calling it on a transformer
      that does not allow reverse transformation is a programming error. */
  function ReverseTransformedValue(t: Transformer, v: Option<Value>): (r: Transformed)
    requires AllowsReverseTransformation(t)
    ensures KeepsSuccessFlag(t.reverse.value, v) ==> r.success
  {
    t.reverse.value(v, true)
  }

  /** `+transformerUsingForwardBlock:`: reverse transformation is not allowed. */
  function TransformerUsingForwardBlock(forward: Block): (t: Transformer)
    ensures !AllowsReverseTransformation(t)
    ensures forall v :: TransformedValue(t, v) == forward(v, true)
  {
    Transformer(forward, None)
  }

  /** `+transformerUsingReversibleBlock:`: one block serves both directions. */
  function TransformerUsingReversibleBlock(block: Block): (t: Transformer)
    ensures AllowsReverseTransformation(t)
    ensures forall v :: TransformedValue(t, v) == block(v, true)
    ensures forall v :: ReverseTransformedValue(t, v) == TransformedValue(t, v)
  {
    Transformer(block, Some(block))
  }

  /** `+transformerUsingForwardBlock:reverseBlock:`. */
  function TransformerUsingForwardAndReverseBlocks(forward: Block, reverse: Block): (t: Transformer)
    ensures AllowsReverseTransformation(t)
    ensures forall v :: TransformedValue(t, v) == forward(v, true)
    ensures forall v :: ReverseTransformedValue(t, v) == reverse(v, true)
  {
    Transformer(forward, Some(reverse))
  }

  /** The constructors with a reverse block are exactly the ones that give a
      reversible transformer: a transformer is forward-only exactly when it is
      the one `+transformerUsingForwardBlock:` builds from its forward block. */
  lemma ReversibleMeansReverseBlock(t: Transformer)
    ensures AllowsReverseTransformation(t) <==>
              exists reverse: Block :: t == TransformerUsingForwardAndReverseBlocks(t.forward, reverse)
    ensures !AllowsReverseTransformation(t) <==> t == TransformerUsingForwardBlock(t.forward)
  {
    if AllowsReverseTransformation(t) {
      assert t == TransformerUsingForwardAndReverseBlocks(t.forward, t.reverse.value);
    }
  }

  /** `-mtl_invertedTransformer`: the receiver must allow reverse
      transformation; the result transforms forward as the receiver does in
      reverse, and the other way round. */
  function Inverted(t: Transformer): (r: Transformer)
    requires AllowsReverseTransformation(t)
    ensures AllowsReverseTransformation(r)
    ensures forall v :: TransformedValue(r, v) == ReverseTransformedValue(t, v)
    ensures forall v :: ReverseTransformedValue(r, v) == TransformedValue(t, v)
  {
    Transformer(t.reverse.value, Some(t.forward))
  }

  /** Inverting twice gives back a transformer that behaves as the original. */
  lemma InvertedTwice(t: Transformer, v: Option<Value>)
    requires AllowsReverseTransformation(t)
    ensures TransformedValue(Inverted(Inverted(t)), v) == TransformedValue(t, v)
    ensures ReverseTransformedValue(Inverted(Inverted(t)), v) == ReverseTransformedValue(t, v)
  {
  }
}
