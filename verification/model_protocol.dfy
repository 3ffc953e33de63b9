/** The `MTLModel` protocol: the property keys of a model class, its dictionary
    value, initialisation from a dictionary with key-value-coding validation,
    merging one key from another model, and whole-model validation. A model
    class is a declared record: its class chain, the values `-init` stores, and
    the `validate<Key>:error:` and `merge<Key>FromModel:` methods it implements,
    as tables keyed by property name. */
module ModelProtocol {
  import opened Wrappers
  import opened Values
  import opened PropertyAttributes

  /** Properties declared on MTLModel itself are never property keys. */
  const MTLModelClassName: string := "MTLModel"

  /** An NSError reduced to its domain and code. */
  datatype ModelError = ModelError(domain: string, code: int)

  /** What a `validate<Key>:error:` method does with a value: accept it,
      possibly replacing it, or reject it, possibly setting an error. */
  datatype Validation = Accept(value: Option<Value>) | Reject(error: Option<ModelError>)

  type Validator = Option<Value> -> Validation

  /** `merge<Key>FromModel:`: the receiver's new value for the key from the
      receiver's value and the other model's value. */
  type Merger = (Option<Value>, Option<Value>) -> Option<Value>

  datatype ModelClass = ModelClass(
    chain: seq<ClassDecl>,              // the class, then each superclass
    defaults: map<string, Value>,       // what -init stores; other properties start nil
    validators: map<string, Validator>, // the validate<Key>:error: methods
    mergers: map<string, Merger>)       // the merge<Key>FromModel: methods

  /** A model object: the value of each of its properties. */
  datatype Model = Model(values: map<string, Option<Value>>)

  /** The value of property `key` (nil when the object stores none). */
  function Get(m: Model, key: string): Option<Value> {
    if key in m.values then m.values[key] else None
  }

  // ---------------------------------------------------------------------------
  // +propertyKeys

  /** The declarations enumerated from the class up to, not including, MTLModel. */
  function ModelDeclarations(c: ModelClass): seq<PropertyDecl> {
    Declarations(ClassesUntil(c.chain, MTLModelClassName))
  }

  /** Everything but a readonly property without an instance variable. */
  predicate IsStoredProperty(d: PropertyDecl) {
    var a := AttributesOf(d);
    !(a.readonly && a.ivar.None?)
  }

  /** The names that some stored declaration among `decls` carries, each
      once, in the order of their first stored declaration, leaving out the
      names in `seen`. The enumeration visits every declaration, so a name
      redeclared without storage on a subclass is still a key when a
      superclass declares it stored. */
  function KeysFrom(decls: seq<PropertyDecl>, seen: set<string>): (r: seq<string>)
    ensures forall i, j :: 0 <= i < j < |r| ==> r[i] != r[j]
    ensures forall i :: 0 <= i < |r| ==> r[i] !in seen
    decreases |decls|
  {
    if |decls| == 0 then []
    else
      var d := decls[0];
      if d.name !in seen && IsStoredProperty(d) then [d.name] + KeysFrom(decls[1..], seen + {d.name})
      else KeysFrom(decls[1..], seen)
  }

  /** A name is listed exactly when it is not in `seen` and at least one of
      its declarations is a stored property. */
  lemma {:induction false} KeysFromMeaning(decls: seq<PropertyDecl>, seen: set<string>, k: string)
    ensures k in KeysFrom(decls, seen) <==>
              k !in seen && exists d :: d in decls && d.name == k && IsStoredProperty(d)
    decreases |decls|
  {
    if |decls| > 0 {
      var d := decls[0];
      assert decls == [d] + decls[1..];
      if d.name !in seen && IsStoredProperty(d) {
        KeysFromMeaning(decls[1..], seen + {d.name}, k);
      } else {
        KeysFromMeaning(decls[1..], seen, k);
      }
    }
  }

  /** The names of the stored properties among `decls`, in order. */
  function StoredNames(decls: seq<PropertyDecl>): seq<string> {
    if |decls| == 0 then []
    else if IsStoredProperty(decls[0]) then [decls[0].name] + StoredNames(decls[1..])
    else StoredNames(decls[1..])
  }

  lemma {:induction false} StoredNamesAppend(a: seq<PropertyDecl>, b: seq<PropertyDecl>)
    ensures StoredNames(a + b) == StoredNames(a) + StoredNames(b)
    decreases |a|
  {
    if |a| == 0 {
      assert a + b == b;
    } else {
      assert (a + b)[0] == a[0];
      assert (a + b)[1..] == a[1..] + b;
      StoredNamesAppend(a[1..], b);
    }
  }

  /** When no name is declared twice, or was seen before, the keys are simply
      the stored properties' names. */
  lemma {:induction false} KeysFromDistinct(decls: seq<PropertyDecl>, seen: set<string>)
    requires forall i, j :: 0 <= i < j < |decls| ==> decls[i].name != decls[j].name
    requires forall i :: 0 <= i < |decls| ==> decls[i].name !in seen
    ensures KeysFrom(decls, seen) == StoredNames(decls)
    decreases |decls|
  {
    if |decls| > 0 {
      if IsStoredProperty(decls[0]) {
        KeysFromDistinct(decls[1..], seen + {decls[0].name});
      } else {
        KeysFromDistinct(decls[1..], seen);
      }
    }
  }

  /** The property keys in the order validation visits them. */
  function PropertyKeyList(c: ModelClass): (r: seq<string>)
    ensures forall i, j :: 0 <= i < j < |r| ==> r[i] != r[j]
  {
    KeysFrom(ModelDeclarations(c), {})
  }

  /** A list without repetitions has as many elements as its set. */
  lemma {:induction false} DistinctCardinality(s: seq<string>)
    requires forall i, j :: 0 <= i < j < |s| ==> s[i] != s[j]
    ensures |set k | k in s| == |s|
    decreases |s|
  {
    if |s| > 0 {
      var tail := s[1..];
      DistinctCardinality(tail);
      assert s[0] !in tail;
      assert (set k | k in s) == (set k | k in tail) + {s[0]};
    }
  }

  /** `+propertyKeys`: the names of all declared properties below MTLModel,
      except readonly properties without an instance variable. */
  function PropertyKeys(c: ModelClass): set<string> {
    set k | k in PropertyKeyList(c)
  }

  /** There are as many property keys as entries in the key list: validation
      and merging visit each key exactly once. */
  lemma PropertyKeysCount(c: ModelClass)
    ensures |PropertyKeys(c)| == |PropertyKeyList(c)|
  {
    DistinctCardinality(PropertyKeyList(c));
  }

  /** The property key set of a class whose key list is known. */
  lemma PropertyKeysOfList(c: ModelClass, keys: seq<string>)
    requires PropertyKeyList(c) == keys
    ensures PropertyKeys(c) == set k | k in keys
  {
  }

  /** A name is a property key exactly when some declaration of it below
      MTLModel is not readonly-without-an-instance-variable. */
  lemma PropertyKeysMeaning(c: ModelClass, k: string)
    ensures k in PropertyKeys(c) <==>
              exists d :: d in ModelDeclarations(c) && d.name == k && IsStoredProperty(d)
  {
    KeysFromMeaning(ModelDeclarations(c), {}, k);
  }

  /** Subclassing never removes a property key: every key of the superclass
      is a key of a subclass, whatever the subclass redeclares. */
  lemma SubclassKeepsPropertyKeys(sub: ClassDecl, parent: ModelClass, k: string)
    requires sub.name != MTLModelClassName
    requires k in PropertyKeys(parent)
    ensures k in PropertyKeys(parent.(chain := [sub] + parent.chain))
  {
    var child := parent.(chain := [sub] + parent.chain);
    assert ([sub] + parent.chain)[1..] == parent.chain;
    assert ClassesUntil(child.chain, MTLModelClassName) == [sub] + ClassesUntil(parent.chain, MTLModelClassName);
    DeclarationsCons(sub, ClassesUntil(parent.chain, MTLModelClassName));
    PropertyKeysMeaning(parent, k);
    var d :| d in ModelDeclarations(parent) && d.name == k && IsStoredProperty(d);
    assert d in ModelDeclarations(child);
    PropertyKeysMeaning(child, k);
  }

  /** Every declaration of some classes is declared on one of them. */
  lemma {:induction false} DeclarationsOrigin(classes: seq<ClassDecl>, p: PropertyDecl)
    requires p in Declarations(classes)
    ensures exists cl :: cl in classes && p in cl.properties
    decreases |classes|
  {
    var last := classes[|classes| - 1];
    if p !in last.properties {
      DeclarationsOrigin(classes[..|classes| - 1], p);
    }
  }

  /** A name that no class below MTLModel declares, in particular one only
      MTLModel itself or its superclasses declare, is not a property key. */
  lemma MTLModelPropertiesAreNotKeys(c: ModelClass, k: string)
    requires forall cl, p :: cl in ClassesUntil(c.chain, MTLModelClassName) && p in cl.properties ==> p.name != k
    ensures k !in PropertyKeys(c)
  {
    PropertyKeysMeaning(c, k);
    if k in PropertyKeys(c) {
      var d :| d in ModelDeclarations(c) && d.name == k && IsStoredProperty(d);
      DeclarationsOrigin(ClassesUntil(c.chain, MTLModelClassName), d);
      assert false;
    }
  }

  /** A model object that stores a value for exactly the property keys. */
  predicate Conforms(c: ModelClass, m: Model) {
    m.values.Keys == PropertyKeys(c)
  }

  // ---------------------------------------------------------------------------
  // -init and -dictionaryValue

  /** `-init`: every property key holds its default, or nil. */
  function Init(c: ModelClass): (m: Model)
    ensures Conforms(c, m)
    ensures forall k :: k in PropertyKeys(c) && k in c.defaults ==> Get(m, k) == Some(c.defaults[k])
    ensures forall k :: k in PropertyKeys(c) && k !in c.defaults ==> Get(m, k) == None
  {
    Model(map k | k in PropertyKeys(c) :: if k in c.defaults then Some(c.defaults[k]) else None)
  }

  /** `-dictionaryValue`: never nil; exactly the property keys, with nil
      values represented by NSNull. */
  function DictionaryValue(c: ModelClass, m: Model): (d: map<string, Value>)
    ensures d.Keys == PropertyKeys(c)
    ensures forall k :: k in d ==> (Get(m, k).Some? ==> d[k] == Get(m, k).value)
    ensures forall k :: k in d ==> (Get(m, k).None? ==> d[k] == Null)
  {
    map k | k in PropertyKeys(c) :: NilToNull(Get(m, k))
  }

  // ---------------------------------------------------------------------------
  // Key-value-coding validation

  /** `-validateValue:forKey:error:`: the class's validate<Key>:error: method,
      or acceptance of the value unchanged when it implements none. */
  function ValidateValue(c: ModelClass, key: string, v: Option<Value>): (r: Validation)
    ensures key !in c.validators ==> r == Accept(v)
  {
    if key in c.validators then c.validators[key](v) else Accept(v)
  }

  /** The values the validators leave for the keys of `input` listed in `keys`. */
  function Accepted(c: ModelClass, keys: seq<string>, input: map<string, Option<Value>>)
    : map<string, Option<Value>>
  {
    map k | k in keys && k in input && ValidateValue(c, k, input[k]).Accept? :: ValidateValue(c, k, input[k]).value
  }

  /** Validates and sets, in the order of `keys`, each key that `input` has a
      value for, stopping at the first rejection. */
  function ValidateEach(c: ModelClass, keys: seq<string>, input: map<string, Option<Value>>,
                        acc: map<string, Option<Value>>): Result<map<string, Option<Value>>, Option<ModelError>>
    decreases |keys|
  {
    if |keys| == 0 then Success(acc)
    else if keys[0] !in input then ValidateEach(c, keys[1..], input, acc)
    else
      match ValidateValue(c, keys[0], input[keys[0]])
      case Reject(e) => Failure(e)
      case Accept(v) => ValidateEach(c, keys[1..], input, acc[keys[0] := v])
  }

  lemma UpdateThenUnion<K, V>(a: map<K, V>, b: map<K, V>, k: K, v: V)
    requires k !in b
    ensures a[k := v] + b == a + b[k := v]
  {
  }

  /** How `Accepted` splits off the first key. */
  lemma AcceptedStep(c: ModelClass, keys: seq<string>, input: map<string, Option<Value>>)
    requires |keys| > 0 && keys[0] !in keys[1..]
    ensures var k0 := keys[0];
            Accepted(c, keys, input)
            == if k0 in input && ValidateValue(c, k0, input[k0]).Accept?
               then Accepted(c, keys[1..], input)[k0 := ValidateValue(c, k0, input[k0]).value]
               else Accepted(c, keys[1..], input)
  {
    assert forall k :: k in keys <==> k == keys[0] || k in keys[1..];
  }

  /** Validation succeeds exactly when every validator accepts. */
  lemma {:induction false} ValidateEachSucceeds(c: ModelClass, keys: seq<string>, input: map<string, Option<Value>>,
                                                acc: map<string, Option<Value>>)
    ensures ValidateEach(c, keys, input, acc).Success?
            <==> forall k :: k in keys && k in input ==> ValidateValue(c, k, input[k]).Accept?
    decreases |keys|
  {
    if |keys| > 0 {
      assert forall k :: k in keys <==> k == keys[0] || k in keys[1..];
      if keys[0] !in input {
        ValidateEachSucceeds(c, keys[1..], input, acc);
      } else if ValidateValue(c, keys[0], input[keys[0]]).Accept? {
        ValidateEachSucceeds(c, keys[1..], input, acc[keys[0] := ValidateValue(c, keys[0], input[keys[0]]).value]);
      }
    }
  }

  /** On success every given key holds what its validator accepted. */
  lemma {:induction false} ValidateEachValues(c: ModelClass, keys: seq<string>, input: map<string, Option<Value>>,
                                              acc: map<string, Option<Value>>)
    requires forall i, j :: 0 <= i < j < |keys| ==> keys[i] != keys[j]
    requires ValidateEach(c, keys, input, acc).Success?
    ensures ValidateEach(c, keys, input, acc).value == acc + Accepted(c, keys, input)
    decreases |keys|
  {
    if |keys| > 0 {
      var k0 := keys[0];
      var rest := keys[1..];
      assert k0 !in rest;
      AcceptedStep(c, keys, input);
      if k0 !in input {
        ValidateEachValues(c, rest, input, acc);
      } else {
        var v := ValidateValue(c, k0, input[k0]).value;
        assert ValidateEach(c, keys, input, acc) == ValidateEach(c, rest, input, acc[k0 := v]);
        ValidateEachValues(c, rest, input, acc[k0 := v]);
        assert k0 !in Accepted(c, rest, input);
        UpdateThenUnion(acc, Accepted(c, rest, input), k0, v);
      }
    }
  }

  /** On failure the error is one a validator of a given key reported. */
  lemma {:induction false} ValidateEachError(c: ModelClass, keys: seq<string>, input: map<string, Option<Value>>,
                                             acc: map<string, Option<Value>>)
    requires ValidateEach(c, keys, input, acc).Failure?
    ensures exists k :: k in keys && k in input
                        && ValidateValue(c, k, input[k]) == Reject(ValidateEach(c, keys, input, acc).error)
    decreases |keys|
  {
    var k0 := keys[0];
    if k0 !in input {
      ValidateEachError(c, keys[1..], input, acc);
    } else if ValidateValue(c, k0, input[k0]).Accept? {
      ValidateEachError(c, keys[1..], input, acc[k0 := ValidateValue(c, k0, input[k0]).value]);
    }
  }

  /** A dictionary's values with NSNull turned into nil. */
  function NilForNull(d: map<string, Value>): map<string, Option<Value>> {
    map k | k in d :: NullToNil(d[k])
  }

  /** Validating a dictionary's values over the property keys of `c`,
      starting from `-init`'s values. */
  function ValidateDictionary(c: ModelClass, dict: map<string, Value>): Result<map<string, Option<Value>>, Option<ModelError>> {
    ValidateEach(c, PropertyKeyList(c), NilForNull(dict), Init(c).values)
  }

  /** Validating a dictionary succeeds exactly when every given value is accepted. */
  lemma ValidateDictionarySucceeds(c: ModelClass, dict: map<string, Value>)
    requires dict.Keys <= PropertyKeys(c)
    ensures ValidateDictionary(c, dict).Success?
            <==> forall k :: k in dict ==> ValidateValue(c, k, NullToNil(dict[k])).Accept?
  {
    var input := NilForNull(dict);
    var keys := PropertyKeyList(c);
    ValidateEachSucceeds(c, keys, input, Init(c).values);
    assert forall k :: k in input <==> k in dict;
    assert forall k :: k in dict ==> k in keys;
  }

  /** A successful validation stores the accepted value for each given key and
      the default for every other property key. */
  lemma ValidateDictionaryValues(c: ModelClass, dict: map<string, Value>)
    requires dict.Keys <= PropertyKeys(c)
    requires ValidateDictionary(c, dict).Success?
    ensures forall k :: k in dict ==> ValidateValue(c, k, NullToNil(dict[k])).Accept?
    ensures ValidateDictionary(c, dict).value.Keys == PropertyKeys(c)
    ensures forall k :: k in PropertyKeys(c) ==>
              Get(Model(ValidateDictionary(c, dict).value), k)
              == if k in dict then ValidateValue(c, k, NullToNil(dict[k])).value else Get(Init(c), k)
  {
    var input := NilForNull(dict);
    var keys := PropertyKeyList(c);
    ValidateDictionarySucceeds(c, dict);
    ValidateEachValues(c, keys, input, Init(c).values);
    var accepted := Accepted(c, keys, input);
    var values := ValidateDictionary(c, dict).value;
    assert values == Init(c).values + accepted;
    forall k | k in PropertyKeys(c)
      ensures Get(Model(values), k)
              == if k in dict then ValidateValue(c, k, NullToNil(dict[k])).value else Get(Init(c), k)
    {
      if k in dict {
        assert k in keys && input[k] == NullToNil(dict[k]);
        assert accepted[k] == ValidateValue(c, k, input[k]).value;
      } else {
        assert k !in accepted;
      }
    }
  }

  /** A failed validation reports the error of a rejecting validator. */
  lemma ValidateDictionaryError(c: ModelClass, dict: map<string, Value>)
    requires ValidateDictionary(c, dict).Failure?
    ensures exists k :: k in dict && ValidateValue(c, k, NullToNil(dict[k])) == Reject(ValidateDictionary(c, dict).error)
  {
    ValidateEachError(c, PropertyKeyList(c), NilForNull(dict), Init(c).values);
  }

  /** `-initWithDictionary:error:`. A nil dictionary is plain `-init`. Otherwise
      each given key is validated (NSNull becoming nil first) and set on a
      freshly initialised object; the result is nil (Failure) as soon as a
      validation fails, so no partially valid model is returned. Keys that are
      not property keys are outside the contract: key-value coding raises for
      them. */
  function InitWithDictionary(c: ModelClass, d: Option<map<string, Value>>): (r: Result<Model, Option<ModelError>>)
    requires d.Some? ==> d.value.Keys <= PropertyKeys(c)
    ensures d.None? ==> r == Success(Init(c))
    ensures d.Some? ==>
              (r.Success? <==> forall k :: k in d.value ==> ValidateValue(c, k, NullToNil(d.value[k])).Accept?)
    ensures r.Success? ==> Conforms(c, r.value)
    ensures d.Some? && r.Success? ==>
              forall k :: k in PropertyKeys(c) ==>
                Get(r.value, k) == if k in d.value then ValidateValue(c, k, NullToNil(d.value[k])).value
                                   else Get(Init(c), k)
    ensures d.Some? && r.Failure? ==>
              exists k :: k in d.value && ValidateValue(c, k, NullToNil(d.value[k])) == Reject(r.error)
  {
    match d
    case None => Success(Init(c))
    case Some(dict) =>
      ValidateDictionarySucceeds(c, dict);
      match ValidateDictionary(c, dict)
      case Success(values) =>
        ValidateDictionaryValues(c, dict);
        Success(Model(values))
      case Failure(e) =>
        ValidateDictionaryError(c, dict);
        Failure(e)
  }

  /** `+modelWithDictionary:error:`: `-initWithDictionary:error:` on a new
      instance. NSNull entries reach the validators as nil; a model comes back
      exactly when every given value is accepted, storing the accepted values
      over the defaults; otherwise the error is one a validator reported. */
  function ModelWithDictionary(c: ModelClass, d: map<string, Value>): (r: Result<Model, Option<ModelError>>)
    requires d.Keys <= PropertyKeys(c)
    ensures r.Success? <==> forall k :: k in d ==> ValidateValue(c, k, NullToNil(d[k])).Accept?
    ensures r.Success? ==> Conforms(c, r.value)
    ensures r.Success? ==>
              forall k :: k in PropertyKeys(c) ==>
                Get(r.value, k) == if k in d then ValidateValue(c, k, NullToNil(d[k])).value
                                   else Get(Init(c), k)
    ensures r.Failure? ==> exists k :: k in d && ValidateValue(c, k, NullToNil(d[k])) == Reject(r.error)
  {
    InitWithDictionary(c, Some(d))
  }

  /** The validators accept each of the model's values as they are. */
  predicate AcceptsAsIs(c: ModelClass, m: Model) {
    forall k :: k in PropertyKeys(c) ==> ValidateValue(c, k, Get(m, k)) == Accept(Get(m, k))
  }

  /** A conforming model that stores, for every key of a full dictionary, the
      value its validator accepted unchanged stores exactly the dictionary. */
  lemma StoredAcceptedValues(c: ModelClass, d: map<string, Value>, m: Model)
    requires d.Keys == PropertyKeys(c) && Conforms(c, m)
    requires forall k :: k in d ==> ValidateValue(c, k, NullToNil(d[k])) == Accept(NullToNil(d[k]))
    requires forall k :: k in PropertyKeys(c) ==> Get(m, k) == ValidateValue(c, k, NullToNil(d[k])).value
    ensures m == Model(NilForNull(d))
  {
    forall k | k in m.values
      ensures m.values[k] == NilForNull(d)[k]
    {
      assert k in PropertyKeys(c);
    }
    assert m.values.Keys == NilForNull(d).Keys;
  }

  /** A dictionary that covers every property key and passes validation
      unchanged becomes the model storing its values, NSNull read as nil. */
  lemma InitWithAcceptedDictionary(c: ModelClass, d: map<string, Value>)
    requires d.Keys == PropertyKeys(c)
    requires forall k :: k in d ==> ValidateValue(c, k, NullToNil(d[k])) == Accept(NullToNil(d[k]))
    ensures InitWithDictionary(c, Some(d)) == Success(Model(NilForNull(d)))
  {
    var r := InitWithDictionary(c, Some(d));
    assert r.Success?;
    StoredAcceptedValues(c, d, r.value);
  }

  /** Round trip: a conforming model that stores no NSNull and whose values
      pass validation unchanged is rebuilt exactly from its dictionary value. */
  lemma DictionaryValueRoundTrip(c: ModelClass, m: Model)
    requires Conforms(c, m)
    requires forall k :: k in m.values ==> m.values[k] != Some(Null)
    requires AcceptsAsIs(c, m)
    ensures InitWithDictionary(c, Some(DictionaryValue(c, m))) == Success(m)
  {
    var d := DictionaryValue(c, m);
    forall k | k in d
      ensures NullToNil(d[k]) == Get(m, k)
    {
    }
    InitWithAcceptedDictionary(c, d);
    assert NilForNull(d) == m.values;
  }

  /** The other way round: the dictionary value of a model built from a
      dictionary holds the dictionary's entries, wherever validation kept them. */
  lemma InitThenDictionaryValue(c: ModelClass, d: map<string, Value>, k: string)
    requires d.Keys <= PropertyKeys(c)
    requires InitWithDictionary(c, Some(d)).Success?
    requires k in d && ValidateValue(c, k, NullToNil(d[k])) == Accept(NullToNil(d[k]))
    ensures DictionaryValue(c, InitWithDictionary(c, Some(d)).value)[k] == d[k]
  {
  }

  // ---------------------------------------------------------------------------
  // -mergeValueForKey:fromModel:

  /** `-mergeValueForKey:fromModel:`: the class's merge<Key>FromModel: method
      decides when it has one; otherwise the other model's value wins. No
      other key changes. The key must be a property key of the receiver. */
  function MergeValueForKey(c: ModelClass, m: Model, key: string, other: Model): (r: Model)
    requires key in PropertyKeys(c)
    ensures r.values.Keys == m.values.Keys + {key}
    ensures forall k :: k != key ==> Get(r, k) == Get(m, k)
    ensures key !in c.mergers ==> Get(r, key) == Get(other, key)
    ensures key in c.mergers ==> Get(r, key) == c.mergers[key](Get(m, key), Get(other, key))
  {
    var merged := if key in c.mergers then c.mergers[key](Get(m, key), Get(other, key)) else Get(other, key);
    Model(m.values[key := merged])
  }

  /** The merged value of one key. */
  function MergedValue(c: ModelClass, key: string, mine: Option<Value>, theirs: Option<Value>): Option<Value> {
    if key in c.mergers then c.mergers[key](mine, theirs) else theirs
  }

  /** Merges, in order, each key of `keys` that the other model has. */
  function MergeKeys(c: ModelClass, m: Model, keys: seq<string>, other: Model): Model
    requires forall k :: k in keys ==> k in PropertyKeys(c)
    decreases |keys|
  {
    if |keys| == 0 then m
    else
      var next := if keys[0] in other.values then MergeValueForKey(c, m, keys[0], other) else m;
      MergeKeys(c, next, keys[1..], other)
  }

  /** Merging stores the keys merged and keeps every key already stored. */
  lemma {:induction false} MergeKeysStoredKeys(c: ModelClass, m: Model, keys: seq<string>, other: Model)
    requires forall k :: k in keys ==> k in PropertyKeys(c)
    ensures MergeKeys(c, m, keys, other).values.Keys == m.values.Keys + (set k | k in keys && k in other.values)
    decreases |keys|
  {
    if |keys| > 0 {
      var next := if keys[0] in other.values then MergeValueForKey(c, m, keys[0], other) else m;
      MergeKeysStoredKeys(c, next, keys[1..], other);
      assert forall k :: k in keys <==> k == keys[0] || k in keys[1..];
    }
  }

  /** `-mergeValuesForKeysFromModel:` as the test models use it: every property
      key of the receiver that the other model also has is merged, so a model
      storing exactly its property keys still does afterwards. */
  function MergeValuesForKeysFromModel(c: ModelClass, m: Model, other: Model): (r: Model)
    ensures Conforms(c, m) ==> Conforms(c, r)
  {
    MergeKeysStoredKeys(c, m, PropertyKeyList(c), other);
    MergeKeys(c, m, PropertyKeyList(c), other)
  }

  /** The merged values of the keys in `keys` that the other model has. */
  function MergedMap(c: ModelClass, m: Model, keys: seq<string>, other: Model): map<string, Option<Value>> {
    map k | k in keys && k in other.values :: MergedValue(c, k, Get(m, k), Get(other, k))
  }

  lemma MergedMapStep(c: ModelClass, m: Model, keys: seq<string>, other: Model)
    requires |keys| > 0 && keys[0] !in keys[1..]
    ensures var k0 := keys[0];
            MergedMap(c, m, keys, other)
            == if k0 in other.values
               then MergedMap(c, m, keys[1..], other)[k0 := MergedValue(c, k0, Get(m, k0), Get(other, k0))]
               else MergedMap(c, m, keys[1..], other)
  {
    assert forall k :: k in keys <==> k == keys[0] || k in keys[1..];
  }

  lemma MergedMapFrame(c: ModelClass, m: Model, n: Model, keys: seq<string>, other: Model)
    requires forall k :: k in keys ==> Get(m, k) == Get(n, k)
    ensures MergedMap(c, m, keys, other) == MergedMap(c, n, keys, other)
  {
  }

  lemma {:induction false} MergeKeysMeaning(c: ModelClass, m: Model, keys: seq<string>, other: Model)
    requires forall k :: k in keys ==> k in PropertyKeys(c)
    requires forall i, j :: 0 <= i < j < |keys| ==> keys[i] != keys[j]
    ensures MergeKeys(c, m, keys, other).values == m.values + MergedMap(c, m, keys, other)
    decreases |keys|
  {
    if |keys| > 0 {
      var k0 := keys[0];
      var rest := keys[1..];
      assert k0 !in rest;
      var next := if k0 in other.values then MergeValueForKey(c, m, k0, other) else m;
      assert MergeKeys(c, m, keys, other) == MergeKeys(c, next, rest, other);
      MergeKeysMeaning(c, next, rest, other);
      MergedMapFrame(c, next, m, rest, other);
      MergedMapStep(c, m, keys, other);
      if k0 in other.values {
        var mv := MergedValue(c, k0, Get(m, k0), Get(other, k0));
        assert next.values == m.values[k0 := mv];
        UpdateThenUnion(m.values, MergedMap(c, m, rest, other), k0, mv);
      }
    }
  }

  /** Merging a whole model: each shared property key takes the merged value,
      every other stored value is kept. */
  lemma MergeValuesMeaning(c: ModelClass, m: Model, other: Model, k: string)
    ensures var r := MergeValuesForKeysFromModel(c, m, other);
            Get(r, k) == if k in PropertyKeys(c) && k in other.values then MergedValue(c, k, Get(m, k), Get(other, k))
                         else Get(m, k)
  {
    MergeKeysMeaning(c, m, PropertyKeyList(c), other);
    var keys := PropertyKeyList(c);
    assert k in PropertyKeys(c) <==> k in keys;
  }

  /** Without merge methods, a model's own merged values are the ones it stores. */
  lemma SelfMergedValues(c: ModelClass, m: Model, keys: seq<string>)
    requires forall k :: k in keys ==> k !in c.mergers
    ensures m.values + MergedMap(c, m, keys, m) == m.values
  {
    var merged := MergedMap(c, m, keys, m);
    forall k | k in merged
      ensures k in m.values && merged[k] == m.values[k]
    {
    }
  }

  /** Without merge methods, merging a conforming model with itself changes nothing. */
  lemma SelfMergeIsIdentity(c: ModelClass, m: Model)
    requires Conforms(c, m)
    requires forall k :: k in PropertyKeys(c) ==> k !in c.mergers
    ensures MergeValuesForKeysFromModel(c, m, m) == m
  {
    var keys := PropertyKeyList(c);
    MergeKeysMeaning(c, m, keys, m);
    SelfMergedValues(c, m, keys);
  }

  // ---------------------------------------------------------------------------
  // -validate:

  /** Validates `keys` one by one on the current values, storing a value the
      validator replaced, and stops at the first rejection. */
  method ValidateKeys(c: ModelClass, m: Model, keys: seq<string>) returns (ok: bool, validated: Model, error: Option<ModelError>)
    requires forall i, j :: 0 <= i < j < |keys| ==> keys[i] != keys[j]
    ensures ok <==> forall k :: k in keys ==> ValidateValue(c, k, Get(m, k)).Accept?
    ensures ok ==> forall k :: k in keys ==> Get(validated, k) == ValidateValue(c, k, Get(m, k)).value
    ensures ok ==> forall k :: k !in keys ==> Get(validated, k) == Get(m, k)
    ensures !ok ==> exists k :: k in keys && ValidateValue(c, k, Get(m, k)) == Reject(error)
  {
    validated := m;
    error := None;
    var i := 0;
    while i < |keys|
      invariant i <= |keys|
      invariant forall k :: k in keys[..i] ==> ValidateValue(c, k, Get(m, k)).Accept?
      invariant forall k :: k in keys[..i] ==> Get(validated, k) == ValidateValue(c, k, Get(m, k)).value
      invariant forall k :: k !in keys[..i] ==> Get(validated, k) == Get(m, k)
    {
      var k := keys[i];
      var v := Get(validated, k);
      assert v == Get(m, k) by {
        assert k !in keys[..i];
      }
      match ValidateValue(c, k, v)
      case Reject(e) =>
        return false, m, e;
      case Accept(newValue) =>
        if newValue != v {
          validated := Model(validated.values[k := newValue]);
        }
      assert keys[..i + 1] == keys[..i] + [k];
      i := i + 1;
    }
    assert keys[..i] == keys;
    ok := true;
  }

  /** `-validate:`: runs the validator of every property key on the current
      value, storing a value the validator replaced. YES (`ok`) exactly when
      every property is valid; on NO the error, if any, is the one a rejecting
      validator reported. `validated` is the model afterwards when valid. */
  method Validate(c: ModelClass, m: Model) returns (ok: bool, validated: Model, error: Option<ModelError>)
    ensures ok <==> forall k :: k in PropertyKeys(c) ==> ValidateValue(c, k, Get(m, k)).Accept?
    ensures ok ==> forall k :: k in PropertyKeys(c) ==> Get(validated, k) == ValidateValue(c, k, Get(m, k)).value
    ensures ok ==> forall k :: k !in PropertyKeys(c) ==> Get(validated, k) == Get(m, k)
    ensures !ok ==> exists k :: k in PropertyKeys(c) && ValidateValue(c, k, Get(m, k)) == Reject(error)
  {
    var keys := PropertyKeyList(c);
    ok, validated, error := ValidateKeys(c, m, keys);
    assert forall k :: k in PropertyKeys(c) <==> k in keys;
  }
}
