/** The model classes the Mantle tests use, as concrete instances of the
    `MTLModel` protocol: their declarations, defaults, validation methods and
    merge methods, and what the protocol then promises about each. */
module TestModels {
  import opened Wrappers
  import opened Values
  import opened PropertyAttributes
  import opened ModelProtocol

  const MTLTestModelErrorDomain: string := "MTLTestModelErrorDomain"
  const MTLTestModelNameTooLong: int := 1
  const MTLTestModelNameMissing: int := 2

  /** An NSUInteger holds values modulo 2^64. */
  const UIntModulus: int := 0x1_0000_0000_0000_0000

  /** A nonatomic property backed by an instance variable of the same name
      with a leading underscore, as @synthesize creates it. */
  function Stored(name: string, policy: MemoryPolicy): PropertyDecl {
    PropertyDecl(name, false, true, policy, None, None, Synthesized("_" + name))
  }

  const NSObjectDecl := ClassDecl("NSObject", [])

  /** The protocol's `dictionaryValue` property, computed on demand. */
  const MTLModelDecl := ClassDecl("MTLModel", [PropertyDecl("dictionaryValue", true, true, Copy, None, None, Accessors)])

  const MTLEmptyTestModelDecl := ClassDecl("MTLEmptyTestModel", [])

  const MTLTestModelDecl := ClassDecl("MTLTestModel", [
    Stored("name", Copy),
    Stored("count", Assign),
    Stored("nestedName", Copy),
    // readonly, computed by a getter: no instance variable
    PropertyDecl("dynamicName", true, true, Copy, None, None, Accessors),
    Stored("weakModel", Weak)])

  const MTLSubclassTestModelDecl := ClassDecl("MTLSubclassTestModel", [
    Stored("role", Copy),
    Stored("generation", Copy)])

  const MTLValidationModelDecl := ClassDecl("MTLValidationModel", [Stored("name", Copy)])

  const MTLSelfValidatingModelDecl := ClassDecl("MTLSelfValidatingModel", [])

  const MTLStorageBehaviorModelDecl := ClassDecl("MTLStorageBehaviorModel", [
    PropertyDecl("primitive", true, true, Assign, None, None, Synthesized("_primitive")),
    PropertyDecl("assignProperty", true, true, Assign, None, None, Synthesized("_assignProperty")),
    PropertyDecl("weakProperty", true, true, Weak, None, None, Synthesized("_weakProperty")),
    PropertyDecl("strongProperty", true, true, Retain, None, None, Synthesized("_strongProperty"))])

  /** The value of an NSUInteger property: a boxed number, nil reading as 0. */
  function UInt(v: Option<Value>): (n: nat)
    ensures n < UIntModulus
    ensures v.Some? && v.value.Number? && 0 <= v.value.n < UIntModulus ==> n == v.value.n
  {
    if v.Some? && v.value.Number? then v.value.n % UIntModulus else 0
  }

  /** `-validateName:error:` of MTLTestModel: a name must be shorter than 10
      characters, counted as NSString counts them. */
  function ValidateShortName(v: Option<Value>): Validation {
    if v.Some? && v.value.Str? && Utf16Length(v.value.s) >= 10
    then Reject(Some(ModelError(MTLTestModelErrorDomain, MTLTestModelNameTooLong)))
    else Accept(v)
  }

  /** `-mergeCountFromModel:`: the counts are added, as NSUIntegers. */
  function MergeCount(mine: Option<Value>, theirs: Option<Value>): Option<Value> {
    Some(Number((UInt(mine) + UInt(theirs)) % UIntModulus))
  }

  /** `-validateName:error:` of MTLValidationModel: a nil name is invalid. */
  function ValidatePresentName(v: Option<Value>): Validation {
    if v.None? then Reject(Some(ModelError(MTLTestModelErrorDomain, MTLTestModelNameMissing))) else Accept(v)
  }

  /** `-validateName:error:` of MTLSelfValidatingModel: a nil name becomes "foobar". */
  function FillInName(v: Option<Value>): Validation {
    if v.None? then Accept(Some(Str("foobar"))) else Accept(v)
  }

  const MTLEmptyTestModel := ModelClass([MTLEmptyTestModelDecl, MTLModelDecl, NSObjectDecl], map[], map[], map[])

  const MTLTestModel := ModelClass(
    [MTLTestModelDecl, MTLModelDecl, NSObjectDecl],
    map["count" := Number(1)],
    map["name" := ValidateShortName],
    map["count" := MergeCount])

  /** Inherits the defaults, validation and merge methods of MTLTestModel. */
  const MTLSubclassTestModel := ModelClass(
    [MTLSubclassTestModelDecl, MTLTestModelDecl, MTLModelDecl, NSObjectDecl],
    MTLTestModel.defaults, MTLTestModel.validators, MTLTestModel.mergers)

  const MTLValidationModel := ModelClass(
    [MTLValidationModelDecl, MTLModelDecl, NSObjectDecl], map[], map["name" := ValidatePresentName], map[])

  const MTLSelfValidatingModel := ModelClass(
    [MTLSelfValidatingModelDecl, MTLValidationModelDecl, MTLModelDecl, NSObjectDecl], map[], map["name" := FillInName], map[])

  /** Not one of the test classes: a subclass of MTLValidationModel that
      redeclares `name` readonly, with a hand-written getter and no instance
      variable of its own, to show how redeclaration affects the keys. */
  const MTLRedeclaringModelDecl := ClassDecl("MTLRedeclaringModel", [
    PropertyDecl("name", true, true, Copy, None, None, Accessors)])

  const MTLRedeclaringModel := ModelClass(
    [MTLRedeclaringModelDecl, MTLValidationModelDecl, MTLModelDecl, NSObjectDecl], map[], map[], map[])

  const MTLStorageBehaviorModel := ModelClass([MTLStorageBehaviorModelDecl, MTLModelDecl, NSObjectDecl], map[], map[], map[])

  // ---------------------------------------------------------------------------
  // Property keys

  lemma EmptyTestModelKeys()
    ensures PropertyKeys(MTLEmptyTestModel) == {}
  {
    assert ClassesUntil(MTLEmptyTestModel.chain, MTLModelClassName) == [MTLEmptyTestModelDecl];
    DeclarationsCons(MTLEmptyTestModelDecl, []);
  }

  /** dynamicName, readonly without an instance variable, is not a key. */
  lemma TestModelKeys()
    ensures PropertyKeys(MTLTestModel) == {"name", "count", "nestedName", "weakModel"}
    ensures "dynamicName" !in PropertyKeys(MTLTestModel)
  {
    TestModelKeyList();
    PropertyKeysOfList(MTLTestModel, ["name", "count", "nestedName", "weakModel"]);
    TestModelKeySet();
  }

  lemma TestModelKeySet()
    ensures (set k | k in ["name", "count", "nestedName", "weakModel"]) == {"name", "count", "nestedName", "weakModel"}
    ensures "dynamicName" !in {"name", "count", "nestedName", "weakModel"}
  {
    var keys: seq<string> := ["name", "count", "nestedName", "weakModel"];
    assert forall k :: k in keys <==> k == "name" || k == "count" || k == "nestedName" || k == "weakModel";
  }

  /** The keys of MTLTestModel in the order they are validated. */
  lemma TestModelKeyList()
    ensures PropertyKeyList(MTLTestModel) == ["name", "count", "nestedName", "weakModel"]
    ensures StoredNames(MTLTestModelDecl.properties) == PropertyKeyList(MTLTestModel)
  {
    TestModelDeclarations();
    TestModelStoredNames();
    KeysFromDistinct(MTLTestModelDecl.properties, {});
  }

  lemma TestModelDeclarations()
    ensures ModelDeclarations(MTLTestModel) == MTLTestModelDecl.properties
  {
    assert ClassesUntil(MTLTestModel.chain, MTLModelClassName) == [MTLTestModelDecl];
    DeclarationsCons(MTLTestModelDecl, []);
    assert [MTLTestModelDecl] + [] == [MTLTestModelDecl];
    assert Declarations([]) == [];
    assert MTLTestModelDecl.properties + [] == MTLTestModelDecl.properties;
  }

  lemma TestModelStoredNames()
    ensures StoredNames(MTLTestModelDecl.properties) == ["name", "count", "nestedName", "weakModel"]
  {
    var ds := MTLTestModelDecl.properties;
    assert StoredNames(ds[4..]) == ["weakModel"] by {
      assert ds[4..][1..] == [];
    }
    assert StoredNames(ds[3..]) == ["weakModel"] by {
      assert ds[3..][1..] == ds[4..];
    }
    assert StoredNames(ds[2..]) == ["nestedName", "weakModel"] by {
      assert ds[2..][1..] == ds[3..];
    }
    assert StoredNames(ds[1..]) == ["count", "nestedName", "weakModel"] by {
      assert ds[1..][1..] == ds[2..];
    }
  }

  /** The subclass adds role and generation to its superclass's keys. */
  lemma SubclassTestModelKeys()
    ensures PropertyKeys(MTLSubclassTestModel) == PropertyKeys(MTLTestModel) + {"role", "generation"}
  {
    SubclassTestModelKeyList();
    var keys := PropertyKeyList(MTLSubclassTestModel);
    var superKeys := PropertyKeyList(MTLTestModel);
    forall k | k in PropertyKeys(MTLSubclassTestModel)
      ensures k in PropertyKeys(MTLTestModel) + {"role", "generation"}
    {
      assert k in keys;
      assert k in ["role", "generation"] || k in superKeys;
    }
    forall k | k in PropertyKeys(MTLTestModel) + {"role", "generation"}
      ensures k in PropertyKeys(MTLSubclassTestModel)
    {
      assert k in ["role", "generation"] || k in superKeys;
      assert k in keys;
    }
  }

  /** Enumeration meets the subclass's own declarations first. */
  lemma SubclassTestModelKeyList()
    ensures PropertyKeyList(MTLSubclassTestModel) == ["role", "generation"] + PropertyKeyList(MTLTestModel)
  {
    TestModelKeyList();
    SubclassTestModelDeclarations();
    var own: seq<PropertyDecl> := MTLSubclassTestModelDecl.properties;
    var inherited: seq<PropertyDecl> := MTLTestModelDecl.properties;
    SubclassTestModelDistinctNames();
    KeysFromDistinct(own + inherited, {});
    StoredNamesAppend(own, inherited);
    SubclassOwnStoredNames();
  }

  lemma SubclassOwnStoredNames()
    ensures StoredNames(MTLSubclassTestModelDecl.properties) == ["role", "generation"]
  {
    var own := MTLSubclassTestModelDecl.properties;
    assert StoredNames(own[1..]) == ["generation"] by {
      assert own[1..][1..] == [];
    }
  }

  lemma SubclassTestModelDeclarations()
    ensures ModelDeclarations(MTLSubclassTestModel) == MTLSubclassTestModelDecl.properties + MTLTestModelDecl.properties
  {
    var chain := MTLSubclassTestModel.chain;
    assert ClassesUntil(chain[2..], MTLModelClassName) == [];
    assert ClassesUntil(chain[1..], MTLModelClassName) == [MTLTestModelDecl] by {
      assert chain[1..][1..] == chain[2..];
    }
    assert ClassesUntil(chain, MTLModelClassName) == [MTLSubclassTestModelDecl, MTLTestModelDecl];
    DeclarationsCons(MTLSubclassTestModelDecl, [MTLTestModelDecl]);
    DeclarationsCons(MTLTestModelDecl, []);
    assert [MTLTestModelDecl] + [] == [MTLTestModelDecl];
    assert Declarations([]) == [];
    assert MTLTestModelDecl.properties + [] == MTLTestModelDecl.properties;
  }

  lemma SubclassTestModelDistinctNames()
    ensures var ds := MTLSubclassTestModelDecl.properties + MTLTestModelDecl.properties;
            forall i, j :: 0 <= i < j < |ds| ==> ds[i].name != ds[j].name
  {
    var ds := MTLSubclassTestModelDecl.properties + MTLTestModelDecl.properties;
    var names: seq<string> := ["role", "generation", "name", "count", "nestedName", "dynamicName", "weakModel"];
    assert forall i :: 0 <= i < |ds| ==> ds[i].name == names[i];
    assert forall i, j :: 0 <= i < j < |names| ==> names[i] != names[j];
  }

  /** The self-validating model inherits its one key. */
  lemma ValidationModelKeys()
    ensures PropertyKeys(MTLValidationModel) == {"name"}
    ensures PropertyKeys(MTLSelfValidatingModel) == {"name"}
  {
    assert ClassesUntil(MTLValidationModel.chain, MTLModelClassName) == [MTLValidationModelDecl];
    DeclarationsCons(MTLValidationModelDecl, []);
    KeysFromDistinct(MTLValidationModelDecl.properties, {});
    assert MTLValidationModelDecl.properties[1..] == [];
    assert ClassesUntil(MTLSelfValidatingModel.chain, MTLModelClassName)
        == [MTLSelfValidatingModelDecl, MTLValidationModelDecl];
    DeclarationsCons(MTLSelfValidatingModelDecl, [MTLValidationModelDecl]);
  }

  /** Redeclaring an inherited stored property as readonly without an instance
      variable does not remove its key: the superclass's declaration is still
      enumerated, and it is stored. */
  lemma RedeclaredPropertyStaysKey()
    ensures PropertyKeys(MTLRedeclaringModel) == {"name"}
  {
    var parent := MTLRedeclaringModel.(chain := MTLRedeclaringModel.chain[1..]);
    assert parent.chain == [MTLValidationModelDecl, MTLModelDecl, NSObjectDecl];
    assert ClassesUntil(parent.chain, MTLModelClassName) == [MTLValidationModelDecl];
    DeclarationsCons(MTLValidationModelDecl, []);
    KeysFromDistinct(MTLValidationModelDecl.properties, {});
    assert MTLValidationModelDecl.properties[1..] == [];
    assert "name" in PropertyKeys(parent);
    assert MTLRedeclaringModel == parent.(chain := [MTLRedeclaringModelDecl] + parent.chain);
    SubclassKeepsPropertyKeys(MTLRedeclaringModelDecl, parent, "name");
    assert ClassesUntil(MTLRedeclaringModel.chain, MTLModelClassName)
        == [MTLRedeclaringModelDecl, MTLValidationModelDecl];
    DeclarationsCons(MTLRedeclaringModelDecl, [MTLValidationModelDecl]);
    forall k | k in PropertyKeys(MTLRedeclaringModel) ensures k == "name" {
      PropertyKeysMeaning(MTLRedeclaringModel, k);
    }
  }

  /** Readonly properties with instance variables are keys, and all of them
      report the Assign memory policy whatever they declare. */
  lemma StorageBehaviorModelKeys()
    ensures PropertyKeys(MTLStorageBehaviorModel) == {"primitive", "assignProperty", "weakProperty", "strongProperty"}
    ensures forall p :: p in MTLStorageBehaviorModelDecl.properties ==> AttributesOf(p).memoryPolicy == Assign
  {
    StorageBehaviorModelKeyList();
    PropertyKeysOfList(MTLStorageBehaviorModel, ["primitive", "assignProperty", "weakProperty", "strongProperty"]);
    StorageBehaviorModelKeySet();
  }

  lemma StorageBehaviorModelKeySet()
    ensures (set k | k in ["primitive", "assignProperty", "weakProperty", "strongProperty"])
            == {"primitive", "assignProperty", "weakProperty", "strongProperty"}
  {
    var keys: seq<string> := ["primitive", "assignProperty", "weakProperty", "strongProperty"];
    assert forall k :: k in keys <==> k == "primitive" || k == "assignProperty" || k == "weakProperty" || k == "strongProperty";
  }

  lemma StorageBehaviorModelKeyList()
    ensures PropertyKeyList(MTLStorageBehaviorModel) == ["primitive", "assignProperty", "weakProperty", "strongProperty"]
  {
    StorageBehaviorModelDeclarations();
    StorageBehaviorModelStoredNames();
    KeysFromDistinct(MTLStorageBehaviorModelDecl.properties, {});
  }

  lemma StorageBehaviorModelDeclarations()
    ensures ModelDeclarations(MTLStorageBehaviorModel) == MTLStorageBehaviorModelDecl.properties
  {
    assert ClassesUntil(MTLStorageBehaviorModel.chain, MTLModelClassName) == [MTLStorageBehaviorModelDecl];
    DeclarationsCons(MTLStorageBehaviorModelDecl, []);
    assert [MTLStorageBehaviorModelDecl] + [] == [MTLStorageBehaviorModelDecl];
    assert Declarations([]) == [];
    assert MTLStorageBehaviorModelDecl.properties + [] == MTLStorageBehaviorModelDecl.properties;
  }

  lemma StorageBehaviorModelStoredNames()
    ensures StoredNames(MTLStorageBehaviorModelDecl.properties)
            == ["primitive", "assignProperty", "weakProperty", "strongProperty"]
  {
    var ds := MTLStorageBehaviorModelDecl.properties;
    assert StoredNames(ds[3..]) == ["strongProperty"] by {
      assert ds[3..][1..] == [];
    }
    assert StoredNames(ds[2..]) == ["weakProperty", "strongProperty"] by {
      assert ds[2..][1..] == ds[3..];
    }
    assert StoredNames(ds[1..]) == ["assignProperty", "weakProperty", "strongProperty"] by {
      assert ds[1..][1..] == ds[2..];
    }
  }

  // ---------------------------------------------------------------------------
  // MTLTestModel

  /** A new MTLTestModel has count 1 and every other property nil. */
  lemma CountDefaultsToOne()
    ensures Get(Init(MTLTestModel), "count") == Some(Number(1))
    ensures Get(Init(MTLTestModel), "name") == None
  {
    TestModelKeys();
  }

  /** A name of 10 or more characters fails initialisation with NameTooLong. */
  lemma LongNameIsRejected(name: string)
    requires Utf16Length(name) >= 10
    ensures "name" in PropertyKeys(MTLTestModel)
    ensures InitWithDictionary(MTLTestModel, Some(map["name" := Str(name)]))
            == Failure(Some(ModelError(MTLTestModelErrorDomain, MTLTestModelNameTooLong)))
  {
    TestModelKeys();
    var d := map["name" := Str(name)];
    var r := InitWithDictionary(MTLTestModel, Some(d));
    assert ValidateValue(MTLTestModel, "name", NullToNil(d["name"])).Reject?;
    assert forall k :: k in d ==> k == "name";
  }

  /** A shorter name is stored, next to the default count. */
  lemma ShortNameIsAccepted(name: string)
    requires Utf16Length(name) < 10
    ensures "name" in PropertyKeys(MTLTestModel)
    ensures var r := InitWithDictionary(MTLTestModel, Some(map["name" := Str(name)]));
            r.Success? && Get(r.value, "name") == Some(Str(name)) && Get(r.value, "count") == Some(Number(1))
  {
    TestModelKeys();
    var d := map["name" := Str(name)];
    assert ValidateValue(MTLTestModel, "name", NullToNil(d["name"])) == Accept(Some(Str(name)));
    assert forall k :: k in d ==> k == "name";
    CountDefaultsToOne();
  }

  /** Nine characters whose last lies outside the Basic Multilingual Plane make
      ten UTF-16 units, so the name is too long. */
  lemma AstralNameIsRejected()
    ensures |"abcdefgh\U{1F600}"| == 9
    ensures "name" in PropertyKeys(MTLTestModel)
    ensures InitWithDictionary(MTLTestModel, Some(map["name" := Str("abcdefgh\U{1F600}")]))
            == Failure(Some(ModelError(MTLTestModelErrorDomain, MTLTestModelNameTooLong)))
  {
    var name := "abcdefgh\U{1F600}";
    assert name[8] as int >= 0x1_0000;
    assert Utf16Length(name) >= 10;
    LongNameIsRejected(name);
  }

  /** `-dictionaryValue` leaves dynamicName out and shows a nil name as NSNull. */
  lemma DictionaryValueOfTestModel(m: Model)
    ensures "dynamicName" !in DictionaryValue(MTLTestModel, m)
    ensures "name" in DictionaryValue(MTLTestModel, m)
    ensures Get(m, "name") == None ==> DictionaryValue(MTLTestModel, m)["name"] == Null
  {
    TestModelKeys();
  }

  /** Adding counts that fit in an NSUInteger does not wrap. */
  lemma MergeCountAdds(a: nat, b: nat)
    requires a + b < UIntModulus
    ensures MergeCount(Some(Number(a)), Some(Number(b))) == Some(Number(a + b))
  {
    assert UInt(Some(Number(a))) == a;
    assert UInt(Some(Number(b))) == b;
  }

  /** Merging sets count to the sum of both counts. */
  lemma MergingAddsCounts(m: Model, other: Model, a: nat, b: nat)
    requires a + b < UIntModulus
    requires Get(m, "count") == Some(Number(a)) && Get(other, "count") == Some(Number(b))
    ensures "count" in PropertyKeys(MTLTestModel)
    ensures Get(MergeValueForKey(MTLTestModel, m, "count", other), "count") == Some(Number(a + b))
  {
    TestModelKeys();
    MergeCountAdds(a, b);
    assert MTLTestModel.mergers["count"] == MergeCount;
  }

  /** Merging whole models: count is added, the other model's name wins. */
  lemma MergingTestModels(m: Model, other: Model, a: nat, b: nat)
    requires a + b < UIntModulus
    requires Get(m, "count") == Some(Number(a)) && Get(other, "count") == Some(Number(b))
    requires "count" in other.values && "name" in other.values
    ensures var r := MergeValuesForKeysFromModel(MTLTestModel, m, other);
            Get(r, "count") == Some(Number(a + b)) && Get(r, "name") == Get(other, "name")
  {
    TestModelKeys();
    MergeCountAdds(a, b);
    assert MTLTestModel.mergers["count"] == MergeCount;
    assert "name" !in MTLTestModel.mergers;
    MergeValuesMeaning(MTLTestModel, m, other, "count");
    MergeValuesMeaning(MTLTestModel, m, other, "name");
  }

  /** The subclass merges its superclass's count the same way, and takes the
      other model's role. */
  lemma MergingSubclassModels(m: Model, other: Model, a: nat, b: nat)
    requires a + b < UIntModulus
    requires Get(m, "count") == Some(Number(a)) && Get(other, "count") == Some(Number(b))
    requires "count" in other.values && "role" in other.values
    ensures var r := MergeValuesForKeysFromModel(MTLSubclassTestModel, m, other);
            Get(r, "count") == Some(Number(a + b)) && Get(r, "role") == Get(other, "role")
  {
    SubclassTestModelKeys();
    TestModelKeys();
    assert "count" in PropertyKeys(MTLSubclassTestModel) && "role" in PropertyKeys(MTLSubclassTestModel);
    MergeCountAdds(a, b);
    assert MTLSubclassTestModel.mergers["count"] == MergeCount;
    assert "role" !in MTLSubclassTestModel.mergers;
    MergeValuesMeaning(MTLSubclassTestModel, m, other, "count");
    MergeValuesMeaning(MTLSubclassTestModel, m, other, "role");
  }

  // ---------------------------------------------------------------------------
  // MTLValidationModel and MTLSelfValidatingModel

  /** A validation model with a nil name is invalid, with NameMissing. */
  method ValidateNamelessModel(m: Model) returns (ok: bool, error: Option<ModelError>)
    requires Get(m, "name") == None
    ensures !ok
    ensures error == Some(ModelError(MTLTestModelErrorDomain, MTLTestModelNameMissing))
  {
    ValidationModelKeys();
    assert "name" in PropertyKeys(MTLValidationModel);
    assert ValidateValue(MTLValidationModel, "name", Get(m, "name"))
        == Reject(Some(ModelError(MTLTestModelErrorDomain, MTLTestModelNameMissing)));
    var validated;
    ok, validated, error := Validate(MTLValidationModel, m);
  }

  /** Initialising a validation model with an NSNull name fails the same way. */
  lemma NullNameIsRejected()
    ensures "name" in PropertyKeys(MTLValidationModel)
    ensures InitWithDictionary(MTLValidationModel, Some(map["name" := Null]))
            == Failure(Some(ModelError(MTLTestModelErrorDomain, MTLTestModelNameMissing)))
  {
    ValidationModelKeys();
    var d := map["name" := Null];
    assert ValidateValue(MTLValidationModel, "name", NullToNil(d["name"])).Reject?;
    assert forall k :: k in d ==> k == "name";
  }

  /** Validating a self-validating model without a name stores "foobar" and succeeds. */
  method ValidateSelfValidatingModel(m: Model) returns (ok: bool, validated: Model)
    requires Get(m, "name") == None
    ensures ok
    ensures Get(validated, "name") == Some(Str("foobar"))
  {
    ValidationModelKeys();
    var error;
    ok, validated, error := Validate(MTLSelfValidatingModel, m);
  }

  /** Initialising it with an NSNull name gives a model named "foobar". */
  lemma SelfValidatingNullName()
    ensures "name" in PropertyKeys(MTLSelfValidatingModel)
    ensures InitWithDictionary(MTLSelfValidatingModel, Some(map["name" := Null]))
            == Success(Model(map["name" := Some(Str("foobar"))]))
  {
    ValidationModelKeys();
    var d := map["name" := Null];
    var r := InitWithDictionary(MTLSelfValidatingModel, Some(d));
    assert ValidateValue(MTLSelfValidatingModel, "name", NullToNil(d["name"])) == Accept(Some(Str("foobar")));
    assert forall k :: k in d ==> k == "name";
    assert r.Success?;
    assert r.value.values.Keys == {"name"};
    assert r.value.values["name"] == Some(Str("foobar"));
    assert r.value.values == map["name" := Some(Str("foobar"))];
  }
}
