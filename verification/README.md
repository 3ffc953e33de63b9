# Mantle model-mapping core in Dafny

This project models the core of Mantle. Mantle is an Objective-C library that maps
JSON-like Foundation objects into model objects and back. It has six parts:

- **Key-path lookup**: `-[NSDictionary mtl_getValue:forJSONKeyPath:error:]` follows a dotted key path through
  nested dictionaries. It succeeds with a value, or with nil when a key is missing. It fails when an element
  on the way is not a dictionary.
- **Error-handling value transformers**: `MTLValueTransformer` and the `MTLTransformerErrorHandling`
  protocol.
  - A transformer is built from a forward-only block, a reversible block, or a pair of forward and reverse
    blocks.
  - Each call hands back a value, a success flag and an optional error.
  - Any transformer that allows reverse transformation can be inverted.
- **Predefined transformers**: element-wise array mapping, dictionary value mapping with separate forward
  and reverse defaults, and class validation.
- **Array helpers**: removing every instance of an object, the first object, or the last object.
- **`MTLSelectorWithKeyPattern`**: builds a selector name from a prefix, a capitalised key and a suffix, in
  both overloads.
- **The model contract**:
  - `MTLPropertyAttributes`: memory policy, accessors, instance variable, and property enumeration along a
    class chain.
  - The `MTLModel` protocol: `+propertyKeys`, `-dictionaryValue`, `-initWithDictionary:error:`,
    `+modelWithDictionary:error:`, `-mergeValueForKey:fromModel:` and `-validate:`.
  - The concrete test models whose comments pin these rules down.

Everything is a pure function over immutable data, with these representations:

- Foundation objects are a `Value` datatype: `Null` for NSNull, numbers, strings, arrays, and dictionaries
  with string keys.
- A nil object pointer is `Option.None`.
- Errors are small datatypes rather than `NSError` objects.
- Blocks are Dafny function values. The `*success` flag is an extra argument and an extra result.
- Classes are declared records. Each record holds a class chain with its property declarations, plus the
  defaults, validators (`validate<Key>:error:`) and merge methods (`merge<Key>FromModel:`) the class
  implements.

Files (one module each unless noted):

| file | module(s) | models |
|---|---|---|
| wrappers.dfy | Wrappers | `Option` and `Result` |
| values.dfy | Values | Foundation values, `-isKindOfClass:`, `-[NSString length]`, NSNull/nil conversion |
| key_path.dfy | JsonKeyPath, JsonKeyPathExamples | NSDictionary+MTLJSONKeyPath.h |
| array_manipulation.dfy | ArrayManipulation | NSArray+MTLManipulationAdditions.h |
| value_transformer.dfy | ValueTransformers | MTLValueTransformer.h |
| predefined_transformers.dfy | PredefinedTransformers, PredefinedTransformerExamples | NSValueTransformer+MTLPredefinedTransformerAdditions.h |
| reflection.dfy | Reflection | MTLReflection.h |
| property_attributes.dfy | PropertyAttributes | MTLPropertyAttributes.h |
| model_protocol.dfy | ModelProtocol | MTLModelProtocol.h |
| test_models.dfy | TestModels | MantleTests/MTLTestModel.h |

The model captures what the headers' declarations and doc comments promise. Where a header leaves a
choice open, the model makes one, as follows:

- **NSNull on a key path.** An NSNull met as an intermediate element of a key path is an error, because
  NSDictionary+MTLJSONKeyPath.h:13-25 requires every element along the path to be an NSDictionary. A
  missing key ends the lookup successfully with nil. An NSNull as the final value is returned as NSNull.
- **Validating transformer.** The class-validating transformer allows no reverse transformation, because
  NSValueTransformer+MTLPredefinedTransformerAdditions.h:48-55 promises only a forward check. A nil input
  passes the check.
- **Array mapping.** The array-mapping transformer stores a nil element result as NSNull, so the output
  keeps the input's length. A nil input gives nil. A non-array input is invalid input. The first failing
  element is reported, together with its own error.
- **Value-mapping dictionary.** The dictionary is an association list in enumeration order. Reverse
  transformation returns the first key whose object matches.
- **Object equality.** Arrays and dictionaries compare objects with `-isEqual:`. An NSNumber made from a
  BOOL is equal to the integer 0 or 1, so @YES equals @1, and collections compare their members the same
  way.
- **Enumeration order.** `+enumeratePropertiesFromClass:untilClass:usingBlock:` starts at the given class
  and then visits its superclasses, following MTLPropertyAttributes.h:41-48. Every declaration is visited,
  including a superclass's declaration of a name a subclass redeclares. A name is therefore a property key
  when any of its declarations below MTLModel is stored, and a subclass never loses an inherited key.
- **Validation stops early.** `-validate:` and `-initWithDictionary:error:` stop at the first validator
  that rejects, because MTLModelProtocol.h:41-53 and 63-69 promise a single error and a NO/nil result.
- **Key order.** Keys are validated in property-key order, because the order of an NSDictionary or NSSet
  is unspecified.
- **String length.** `-[NSString length]` counts UTF-16 code units, so the test model's name limit counts
  a character outside the Basic Multilingual Plane twice.

## Model

| member | source | states |
|---|---|---|
| Values.IsKindOfClass | Mantle/NSValueTransformer+MTLPredefinedTransformerAdditions.h:48-55 | every value is an NSObject and an instance of its own class. It is a kind of no other class, because the Foundation classes modelled do not subclass each other |
| Values.Utf16Length | MantleTests/MTLTestModel.h:26-27 | an NSString's length lies between its number of characters and twice that. It equals the number of characters exactly when every character lies in the Basic Multilingual Plane |
| Values.IsEqual | Mantle/NSArray+MTLManipulationAdditions.h:13-14 | `-isEqual:`: identical objects are equal, objects of different classes never are, a BOOL equals the integer it stands for, and a string equals only itself |
| Values.NullToNil | Mantle/MTLModelProtocol.h:23-24 | an NSNull input becomes nil, and every other object is kept as it is |
| Values.NilToNull | Mantle/MTLModelProtocol.h:35-36 | nil is represented by NSNull, and a non-nil object is kept as it is |
| JsonKeyPath.Components | Mantle/NSDictionary+MTLJSONKeyPath.h:17-19 | splitting a key path at dots yields at least one component, and no component contains a dot |
| JsonKeyPath.JoinComponents | Mantle/NSDictionary+MTLJSONKeyPath.h:17-19 | joining the components with dots gives back the key path |
| JsonKeyPath.ComponentsJoin | Mantle/NSDictionary+MTLJSONKeyPath.h:17-19 | splitting dot-free components that were joined with dots gives back the components |
| JsonKeyPath.Walk | Mantle/NSDictionary+MTLJSONKeyPath.h:13-25 | the resolving loop: with no components left it returns the element reached. A failure names a depth within the components still to follow, and an element there that is not a dictionary |
| JsonKeyPath.WalkMeaning | Mantle/NSDictionary+MTLJSONKeyPath.h:13-25 | the resolving loop succeeds exactly when every element it passes is absent or a dictionary. On success its value is the one found by following the keys. On failure the reported element sits at the reported depth and is not a dictionary |
| JsonKeyPath.Resolve | Mantle/NSDictionary+MTLJSONKeyPath.h:13-25 | returns YES exactly when every element reached before the last component is a dictionary or missing, so a missing key is success with nil. The value is the one stored under the last component. An error names a component whose container is present but not a dictionary, NSNull included |
| JsonKeyPath.ResolveSingleKey | Mantle/NSDictionary+MTLJSONKeyPath.h:13-20 | a path without dots is a plain key lookup in the receiver, and a missing key gives success with nil |
| JsonKeyPath.ResolveFoundInLastContainer | Mantle/NSDictionary+MTLJSONKeyPath.h:13-25 | a value that is found is stored under the last component, in the dictionary reached by following the earlier components |
| JsonKeyPathExamples.ResolveExamples | Mantle/NSDictionary+MTLJSONKeyPath.h:13-25 | on concrete inputs: "a.b.c" resolves through nested dictionaries; a number or an NSNull in the middle of the path is an error at that depth; a missing key is success with nil |
| ArrayManipulation.RemovingObject | Mantle/NSArray+MTLManipulationAdditions.h:13-14 | no object equal to the removed one survives, and the length drops by the number of equal objects |
| ArrayManipulation.RemovingObjectCounts | Mantle/NSArray+MTLManipulationAdditions.h:13-14 | every object not equal to the removed one keeps its number of occurrences |
| ArrayManipulation.RemovingObjectDistributes | Mantle/NSArray+MTLManipulationAdditions.h:13-14 | removal distributes over concatenation, so it is a filter that keeps the order of the survivors |
| ArrayManipulation.RemovingObjectSingle | Mantle/NSArray+MTLManipulationAdditions.h:13-14 | a single element is kept exactly when it is not equal to the removed object |
| ArrayManipulation.RemovingAbsentObject | Mantle/NSArray+MTLManipulationAdditions.h:13-14 | an array with no object equal to the removed one comes back unchanged |
| ArrayManipulation.RemovingObjectIdempotent | Mantle/NSArray+MTLManipulationAdditions.h:13-14 | removing an object twice is the same as removing it once |
| ArrayManipulation.RemovingEqualNumbers | Mantle/NSArray+MTLManipulationAdditions.h:13-14 | removing @1 also removes @YES, and removing [@1] removes [@YES], while the string @"1" stays |
| ArrayManipulation.RemovingFirstObject | Mantle/NSArray+MTLManipulationAdditions.h:16-18 | the empty array stays empty. Otherwise the result is one shorter, and putting the first object back in front restores the receiver |
| ArrayManipulation.RemovingLastObject | Mantle/NSArray+MTLManipulationAdditions.h:20-22 | the empty array stays empty. Otherwise the result is one shorter, and putting the last object back at the end restores the receiver |
| ValueTransformers.TransformedValue | Mantle/MTLValueTransformer.h:30-58 | the forward block is called with `*success` set to YES, so a block that never clears it reports success |
| ValueTransformers.ReverseTransformedValue | Mantle/MTLValueTransformer.h:60-77 | only a transformer that allows reverse transformation is asked. The reverse block is called with `*success` set to YES, so a block that never clears it reports success |
| ValueTransformers.ReversibleMeansReverseBlock | Mantle/MTLValueTransformer.h:96-107 | the constructors that take a reverse block are exactly the ones giving a reversible transformer: a transformer is forward-only exactly when it is what `+transformerUsingForwardBlock:` builds from its forward block |
| ValueTransformers.TransformerUsingForwardBlock | Mantle/MTLValueTransformer.h:98-100 | reverse transformation is not allowed, and forward transformation calls the block |
| ValueTransformers.TransformerUsingReversibleBlock | Mantle/MTLValueTransformer.h:102-104 | reverse transformation is allowed, and reverse(v) equals forward(v) for every v |
| ValueTransformers.TransformerUsingForwardAndReverseBlocks | Mantle/MTLValueTransformer.h:106-107 | the first block serves forward transformation and the second serves reverse transformation |
| ValueTransformers.Inverted | Mantle/MTLValueTransformer.h:81-89 | the receiver must allow reverse transformation. The inverse's forward is the receiver's reverse, its reverse is the receiver's forward, and it stays reversible |
| ValueTransformers.InvertedTwice | Mantle/MTLValueTransformer.h:83-89 | inverting twice behaves as the original transformer in both directions |
| PredefinedTransformers.MapElements | Mantle/NSValueTransformer+MTLPredefinedTransformerAdditions.h:14-23 | the element-wise pass succeeds exactly when every element transforms successfully. The output has the same length, with each element's result, nil stored as NSNull. A failure names the first failing element and carries its error |
| PredefinedTransformers.ArrayMappingTransformer | Mantle/NSValueTransformer+MTLPredefinedTransformerAdditions.h:17-19 | the array-mapping transformer allows reverse transformation exactly when the element transformer does |
| PredefinedTransformers.ArrayMappingForward | Mantle/NSValueTransformer+MTLPredefinedTransformerAdditions.h:14-23 | forward mapping of an array succeeds exactly when every element's forward transformation does. The result is the element-wise results. Otherwise the error reports the first failing element |
| PredefinedTransformers.ArrayMappingReverse | Mantle/NSValueTransformer+MTLPredefinedTransformerAdditions.h:17-19 | reverse mapping applies the element transformer's reverse element by element, with the same success and failure rules |
| PredefinedTransformers.ArrayMappingNonArrays | Mantle/NSValueTransformer+MTLPredefinedTransformerAdditions.h:14-23 | nil maps to nil successfully. Any non-array input fails with InvalidInput carrying that input, in either direction |
| PredefinedTransformers.ObjectForKey | Mantle/NSValueTransformer+MTLPredefinedTransformerAdditions.h:28-31 | the lookup is absent exactly when no key is equal to the given one, and a found object is stored under a key equal to it |
| PredefinedTransformers.KeyForObject | Mantle/NSValueTransformer+MTLPredefinedTransformerAdditions.h:32-34 | the lookup is absent exactly when no object is equal to the given one, and a found key maps to an object equal to it |
| PredefinedTransformers.ValueMappingTransformer | Mantle/NSValueTransformer+MTLPredefinedTransformerAdditions.h:25-46 | the value-mapping transformer is reversible |
| PredefinedTransformers.ValueMappingForward | Mantle/NSValueTransformer+MTLPredefinedTransformerAdditions.h:28-31 | forward never fails. A key equal to no dictionary key gives the default value. Otherwise the result is an object stored under a key equal to it |
| PredefinedTransformers.ValueMappingForwardEntry | Mantle/NSValueTransformer+MTLPredefinedTransformerAdditions.h:28-31 | when no two keys are equal, forward of a key gives exactly its object |
| PredefinedTransformers.ValueMappingReverse | Mantle/NSValueTransformer+MTLPredefinedTransformerAdditions.h:32-34 | reverse never fails. An object equal to no dictionary object gives the reverse default value. Otherwise the result is a key whose object is equal to it |
| PredefinedTransformers.ValueMappingNil | Mantle/NSValueTransformer+MTLPredefinedTransformerAdditions.h:28-34 | nil matches nothing, so each direction gives its own default |
| PredefinedTransformers.ValueMappingRoundTrip | Mantle/NSValueTransformer+MTLPredefinedTransformerAdditions.h:25-46 | for a dictionary in which no two keys and no two objects are equal, reverse(forward(k)) == k for every key |
| PredefinedTransformers.ValidatingTransformerForClass | Mantle/NSValueTransformer+MTLPredefinedTransformerAdditions.h:48-55 | forward-only. nil and members of the class pass through unchanged. Any other value fails with InvalidInput carrying it |
| PredefinedTransformerExamples.EnumMappingExample | Mantle/NSValueTransformer+MTLPredefinedTransformerAdditions.h:36-42 | the documented enum example: "foo" maps to Foo, an unmapped key to Undefined, Bar back to "bar", and an unmapped value back to "undefined" |
| PredefinedTransformerExamples.EqualNumbersExample | Mantle/NSValueTransformer+MTLPredefinedTransformerAdditions.h:25-34 | a dictionary keyed by @1 maps @YES forward to its object and its object back to @1, while @"1" gets the default |
| PredefinedTransformerExamples.ArrayOfValidatedStringsExample | Mantle/NSValueTransformer+MTLPredefinedTransformerAdditions.h:14-55 | mapping a string validator over [string, number] fails at index 1 with the element's InvalidInput error |
| Reflection.CString | Mantle/MTLReflection.h:21-22 | a C string argument is read up to its first NUL: the result is a NUL-free prefix of the argument |
| Reflection.ToUpper | Mantle/MTLReflection.h:14-16 | C-locale `toupper`: lower-case ASCII letters become upper case, and every other character is unchanged |
| Reflection.Capitalized | Mantle/MTLReflection.h:14-16 | capitalisation keeps the length, applies C-locale `toupper` to the first character and keeps the rest |
| Reflection.CapitalizedIdempotent | Mantle/MTLReflection.h:14-16 | capitalising twice is the same as capitalising once |
| Reflection.SelectorWithKeyPattern | Mantle/MTLReflection.h:11-21 | NULL exactly when the pieces cannot form a selector, which this model takes to mean an embedded NUL in the key or an empty name. With a prefix the name is prefix, capitalised key, suffix. Without one it is key, suffix, with the key in its natural case |
| Reflection.SelectorWithCKeyPattern | Mantle/MTLReflection.h:22 | the C-string overload is the NSString overload applied to the key read as a C string |
| Reflection.OverloadsAgree | Mantle/MTLReflection.h:21-22 | both overloads give the same selector for every NUL-free key |
| Reflection.PrefixedSelectorKeepsKey | Mantle/MTLReflection.h:13-17 | with a prefix, the key sits between prefix and suffix with only its first character changed |
| PropertyAttributes.DefaultSetterIsKeyPatternSelector | Mantle/MTLPropertyAttributes.h:109-117 | the inferred setter name is the key-pattern selector "set" + key + ":" |
| PropertyAttributes.AttributesOf | Mantle/MTLPropertyAttributes.h:71-124 | a readonly property reports Assign. Custom getter and setter names win over the inferred ones, and a readonly property still reports a setter. Only a synthesised property has an instance variable, so a dynamic one has none |
| PropertyAttributes.ClassesUntil | Mantle/MTLPropertyAttributes.h:41-48 | the visited classes are a prefix of the chain that does not contain the end class, and stop just before it |
| PropertyAttributes.DeclarationsCons | Mantle/MTLPropertyAttributes.h:41-48 | a class's own declarations are enumerated before those of its superclasses |
| PropertyAttributes.VisitClass | Mantle/MTLPropertyAttributes.h:45-48 | one class's names are handed to the block in order until it sets `*stop` |
| PropertyAttributes.EnumerateProperties | Mantle/MTLPropertyAttributes.h:41-48 | the names handed to the block are, in order, a prefix of the properties declared on each class from the start class up to the end class. The block never asked to stop before the last of them, and a run that ends early ended because it asked |
| PropertyAttributes.EnumerationFromEndClassIsEmpty | Mantle/MTLPropertyAttributes.h:41-48 | starting at the end class visits nothing |
| ModelProtocol.KeysFrom | Mantle/MTLModelProtocol.h:59-61 | the listed keys are distinct, and none of them was already seen |
| ModelProtocol.KeysFromMeaning | Mantle/MTLModelProtocol.h:59-61 | a name is listed exactly when it was not already seen and at least one of its declarations is a stored property, whichever class declares it |
| ModelProtocol.KeysFromDistinct | Mantle/MTLModelProtocol.h:59-61 | without duplicate declarations, the keys are the stored properties' names in declaration order |
| ModelProtocol.PropertyKeyList | Mantle/MTLModelProtocol.h:59-61 | each property key is listed once |
| ModelProtocol.PropertyKeysCount | Mantle/MTLModelProtocol.h:59-61 | there are exactly as many property keys as entries in the key list, so validation and merging visit each key once |
| ModelProtocol.PropertyKeysMeaning | Mantle/MTLModelProtocol.h:59-61 | a name is a property key exactly when some declaration of it below MTLModel is not a readonly property without an instance variable |
| ModelProtocol.SubclassKeepsPropertyKeys | Mantle/MTLModelProtocol.h:59-61 | every property key of a class is a property key of each subclass, whatever the subclass redeclares |
| ModelProtocol.MTLModelPropertiesAreNotKeys | Mantle/MTLModelProtocol.h:59-61 | a name that no class below MTLModel declares is not a property key, so properties declared on MTLModel itself are excluded |
| ModelProtocol.Init | Mantle/MTLModelProtocol.h:47-48 | a new object stores exactly the property keys: the class's default where it has one, nil otherwise |
| ModelProtocol.DictionaryValue | Mantle/MTLModelProtocol.h:33-39 | the dictionary value is never nil and has exactly the property keys. A non-nil value appears as it is, and a nil value appears as NSNull |
| ModelProtocol.ValidateValue | Mantle/MTLModelProtocol.h:23-26 | a key without a validation method accepts its value unchanged |
| ModelProtocol.ValidateEachSucceeds | Mantle/MTLModelProtocol.h:25-30 | setting values with validation succeeds exactly when every given key's validator accepts |
| ModelProtocol.ValidateEachValues | Mantle/MTLModelProtocol.h:20-30 | on success each given key holds the value its validator accepted, and every other key is kept |
| ModelProtocol.ValidateEachError | Mantle/MTLModelProtocol.h:27-30 | on failure the error is the one a rejecting validator of a given key reported |
| ModelProtocol.InitWithDictionary | Mantle/MTLModelProtocol.h:41-53 | a nil dictionary gives plain -init. Otherwise the result is non-nil exactly when every validator accepts its value, with NSNull converted to nil first. A result stores every property key: the validated value for given keys and the default for the others. A nil result carries an error some rejecting validator reported, so no partially valid model is returned |
| ModelProtocol.ModelWithDictionary | Mantle/MTLModelProtocol.h:20-31 | NSNull values reach the validators as nil. A model comes back exactly when every given key's validator accepts. It stores every property key: the validated value for given keys, the default for the others. A failure carries the error of a rejecting validator |
| ModelProtocol.InitWithAcceptedDictionary | Mantle/MTLModelProtocol.h:41-53 | a dictionary covering every property key whose values validate unchanged becomes the model storing those values, with NSNull read as nil |
| ModelProtocol.DictionaryValueRoundTrip | Mantle/MTLModelProtocol.h:33-53 | a model that stores every property key and no NSNull, and whose values validate unchanged, is rebuilt exactly from its dictionary value |
| ModelProtocol.InitThenDictionaryValue | Mantle/MTLModelProtocol.h:33-53 | the dictionary value of a model built from a dictionary shows each entry the validators kept |
| ModelProtocol.MergeValueForKey | Mantle/MTLModelProtocol.h:55-57 | without a merge method the other model's value wins. With one, that method decides. No other key changes |
| ModelProtocol.MergeValuesForKeysFromModel | Mantle/MTLModelProtocol.h:55-57 | merging every key from another model keeps a model that stores exactly its property keys in that shape |
| ModelProtocol.MergeKeysMeaning | Mantle/MTLModelProtocol.h:55-57 | merging a list of distinct keys in turn is the same as overlaying the merged values of the keys the other model has |
| ModelProtocol.MergeValuesMeaning | Mantle/MTLModelProtocol.h:55-57 | after merging a whole model, every property key the other model has takes its merged value, and every other key keeps its value |
| ModelProtocol.SelfMergeIsIdentity | Mantle/MTLModelProtocol.h:55-57 | without merge methods, merging a conforming model with itself changes nothing |
| ModelProtocol.Validate | Mantle/MTLModelProtocol.h:63-69 | YES exactly when every property key's validator accepts its value, storing any replacement value and keeping everything else. On NO the error is one a rejecting validator reported |
| TestModels.EmptyTestModelKeys | MantleTests/MTLTestModel.h:17-18 | the empty test model has no property keys |
| TestModels.TestModelKeyList | MantleTests/MTLTestModel.h:20-41 | MTLTestModel's keys, in enumeration order, are name, count, nestedName and weakModel |
| TestModels.TestModelKeys | MantleTests/MTLTestModel.h:35-36 | dynamicName, readonly without an instance variable, is not a property key of MTLTestModel |
| TestModels.SubclassTestModelKeyList | MantleTests/MTLTestModel.h:43-49 | the subclass's own keys, role and generation, are enumerated before the inherited ones |
| TestModels.SubclassTestModelKeys | MantleTests/MTLTestModel.h:43-49 | the subclass's keys are the superclass's keys plus role and generation |
| TestModels.ValidationModelKeys | MantleTests/MTLTestModel.h:51-60 | both validation models have the single key name, the self-validating one by inheritance |
| TestModels.RedeclaredPropertyStaysKey | Mantle/MTLModelProtocol.h:59-61 | a subclass that redeclares an inherited stored property readonly with hand-written accessors still has that property as its one key |
| TestModels.StorageBehaviorModelKeys | MantleTests/MTLTestModel.h:62-70 | readonly properties with instance variables are keys, and every one of them reports Assign |
| TestModels.CountDefaultsToOne | MantleTests/MTLTestModel.h:29-30 | a new MTLTestModel has count 1 and a nil name |
| TestModels.LongNameIsRejected | MantleTests/MTLTestModel.h:11-27 | a name of 10 or more UTF-16 units fails initialisation with MTLTestModelNameTooLong in MTLTestModelErrorDomain |
| TestModels.ShortNameIsAccepted | MantleTests/MTLTestModel.h:26-30 | a name shorter than 10 UTF-16 units is stored, beside the default count of 1 |
| TestModels.AstralNameIsRejected | MantleTests/MTLTestModel.h:26-27 | a name of nine characters whose last lies outside the Basic Multilingual Plane is ten units long and is rejected as too long |
| TestModels.DictionaryValueOfTestModel | MantleTests/MTLTestModel.h:35-36 | dynamicName is absent from the dictionary value, and a nil name appears as NSNull |
| TestModels.MergeCountAdds | MantleTests/MTLTestModel.h:29-30 | the count merge method adds the two counts when they fit in an NSUInteger |
| TestModels.MergingAddsCounts | MantleTests/MTLTestModel.h:29-30 | merging count from another model sets it to the sum of both counts |
| TestModels.MergingTestModels | MantleTests/MTLTestModel.h:29-30 | merging whole models adds the counts and takes the other model's name |
| TestModels.MergingSubclassModels | MantleTests/MTLTestModel.h:43-49 | a subclass merge adds the inherited counts and takes the other model's role |
| TestModels.ValidateNamelessModel | MantleTests/MTLTestModel.h:51-56 | an MTLValidationModel with a nil name is invalid, with MTLTestModelNameMissing |
| TestModels.NullNameIsRejected | MantleTests/MTLTestModel.h:51-56 | initialising an MTLValidationModel with an NSNull name fails with MTLTestModelNameMissing |
| TestModels.ValidateSelfValidatingModel | MantleTests/MTLTestModel.h:58-60 | validating an MTLSelfValidatingModel without a name stores "foobar" and succeeds |
| TestModels.SelfValidatingNullName | MantleTests/MTLTestModel.h:58-60 | initialising it with an NSNull name gives the model named "foobar" |

## Left out

- NSError objects: errors keep only what identifies them. That is a domain and a code, or the offending
  input for transformer errors. userInfo, localized descriptions and the InvalidInput error domain and code
  constants are not modelled.
- Plain `-transformedValue:` / `-reverseTransformedValue:` without error reporting: only the error-reporting
  calls are modelled.
- `+propertyNamed:class:`, `+propertyNamed:protocol:` and `+reuse:` are not modelled. They are run-time
  reflection and caching; classes here are declared records.
- The `canBeCollected`, `objectClass` and `type` attributes are not modelled. They depend on type
  encodings and on looking classes up at run time.
- `+setModelVersion:`, archiving and migration are not modelled. The test model's `nestedName` and
  `weakModel` are plain properties. They are class-level mutable state and NSCoding, with no pure meaning
  here.
- Weak references are not modelled: zeroing and memory management are run-time concerns. The memory
  policy is kept only as an attribute.
- Floating-point NSNumbers are not modelled; numbers are integers or booleans.
- `MTLTestModelNameTooLong`, `MTLTestModelNameMissing` and `MTLTestModelErrorDomain` are declared `extern`.
  Their values are defined in MTLTestModel.m, which is not part of this model. They are given the values
  1, 2 and the domain's own name.
- Key-value-coding validation dispatch by selector name is not modelled. Validators and merge methods are
  tables keyed by property name.
- ModelProtocol.InitWithDictionary: keys that are not property keys are excluded by its precondition,
  because key-value coding raises an exception for them rather than returning an error.
- ModelProtocol.InitWithDictionary: every property holds an object, so nil (or NSNull) for a scalar
  property such as MTLTestModel's NSUInteger `count` is stored as nil. Key-value coding would instead
  raise from `-setNilValueForKey:`. Values are not converted to the property's type either: Number(-1)
  stays -1 where an NSUInteger would hold 2^64 - 1.
- ModelProtocol.ModelWithDictionary: keys that are not property keys are excluded by its precondition,
  because key-value coding raises an exception for them rather than returning nil. Nil for a scalar
  property and type conversion are left out as for `InitWithDictionary`.
- ModelProtocol.InitWithDictionary: when several keys would fail, the model fixes which error is reported
  (the first in property-key order). The header leaves that unspecified.
- ModelProtocol.Validate: the values of a failed validation are not returned. Only the outcome and error
  of a failed validation are modelled, not the partial updates the object keeps.
- ModelProtocol.MergeValuesForKeysFromModel: `-mergeValuesForKeysFromModel:` is declared in MTLModel.h,
  which is not part of this model. It is modelled as merging, in property-key order, every property key
  that the other model stores.
- ModelProtocol.MergeValueForKey: merge methods see only the two values of the key, not the whole other
  model.
- ModelProtocol.MergeValueForKey: keys that are not property keys are excluded by its precondition,
  because key-value coding raises an exception for them rather than returning a value.
- PropertyAttributes.EnumerateProperties: the block's `*stop` decision depends only on the name handed to
  it. A block that keeps state between calls, and so stops on the second visit of a redeclared name, is
  not modelled.
- TestModels.MergeCount: the sum wraps modulo 2^64 as an NSUInteger does. A count that is nil or not a
  number reads as 0; a real NSUInteger property can hold neither (see ModelProtocol.InitWithDictionary).
- Reflection.ToUpper: only ASCII letters are upper-cased, as C-locale `toupper` does. The Unicode case
  mapping of Foundation (`é` to `É`, `ß` to `SS`) is not modelled.
- Reflection.Capitalized: the first character is capitalised with C-locale `toupper`, so a key starting
  with a non-ASCII letter keeps it. The length-preserving contract relies on this; an upper case form of
  several characters is not modelled.
- Reflection.SelectorWithKeyPattern: a prefixed key is capitalised as `Reflection.Capitalized` does, ASCII
  only. The rule for when NULL is returned (an embedded NUL in the key, or an empty name) is this model's
  reading of "cannot form a valid selector". The runtime's own checks on selector characters are not
  modelled.
- Strings are sequences of Unicode scalar values. Only the test model's name limit counts UTF-16 units
  (`Values.Utf16Length`). No other string operation depends on the encoding.
- The JSON adapter, JSON parsing and the value-transformer registry are not modelled. They are outside
  this core.
