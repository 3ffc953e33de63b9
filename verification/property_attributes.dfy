/** `MTLPropertyAttributes`: what a property declaration says about memory
    management, accessors and backing storage, and the enumeration of the
    properties declared along a class hierarchy. Classes are declared records
    rather than objects inspected at run time. */
module PropertyAttributes {
  import opened Wrappers
  import Reflection

  /** `MTLPropertyMemoryPolicy`. */
  datatype MemoryPolicy = Assign | Retain | Copy | Weak

  /** How a property's value is backed. */
  datatype Backing =
    | Synthesized(ivar: string)  // an instance variable created by @synthesize
    | Dynamic                    // @dynamic: accessors supplied at run time
    | Accessors                  // hand-written accessors, no instance variable

  /** A @property declaration. `getter` and `setter` are the custom selector
      names given with getter= and setter=, if any. */
  datatype PropertyDecl = PropertyDecl(
    name: string,
    readonly: bool,
    nonatomic: bool,
    policy: MemoryPolicy,
    getter: Option<string>,
    setter: Option<string>,
    backing: Backing)

  /** The attributes an `MTLPropertyAttributes` instance reports. */
  datatype Attributes = Attributes(
    name: string,
    readonly: bool,
    nonatomic: bool,
    dynamic: bool,
    memoryPolicy: MemoryPolicy,
    getter: string,
    setter: string,
    ivar: Option<string>)

  /** The setter name the compiler infers: "set", the capitalised name, ":". */
  function DefaultSetterName(name: string): string {
    "set" + Reflection.Capitalized(name) + ":"
  }

  /** The inferred setter is the selector `MTLSelectorWithKeyPattern("set", name, ":")`. */
  lemma DefaultSetterIsKeyPatternSelector(name: string)
    requires Reflection.NUL !in name
    ensures Reflection.SelectorWithKeyPattern(Some("set"), name, ":") == Some(DefaultSetterName(name))
  {
    assert Reflection.CString("set") == "set";
    assert Reflection.CString(":") == ":";
  }

  /** The attributes of a declared property. */
  function AttributesOf(d: PropertyDecl): (a: Attributes)
    ensures a.name == d.name && a.readonly == d.readonly && a.nonatomic == d.nonatomic
    ensures a.dynamic <==> d.backing.Dynamic?
    // a readonly property always reports Assign
    ensures a.readonly ==> a.memoryPolicy == Assign
    ensures !a.readonly ==> a.memoryPolicy == d.policy
    // a custom accessor name wins, otherwise the inferred one; readonly
    // properties report the setter they would have
    ensures a.getter == d.getter.GetOr(d.name)
    ensures a.setter == d.setter.GetOr(DefaultSetterName(d.name))
    // only a synthesised property has an instance variable
    ensures a.ivar.Some? <==> d.backing.Synthesized?
    ensures a.dynamic ==> a.ivar.None?
  {
    Attributes(
      d.name, d.readonly, d.nonatomic, d.backing.Dynamic?,
      if d.readonly then Assign else d.policy,
      d.getter.GetOr(d.name),
      d.setter.GetOr(DefaultSetterName(d.name)),
      if d.backing.Synthesized? then Some(d.backing.ivar) else None)
  }

  /** A class and the properties it declares itself, in declaration order. */
  datatype ClassDecl = ClassDecl(name: string, properties: seq<PropertyDecl>)

  /** The classes visited from `chain[0]` up to, but not including, `endCls`;
      `chain` lists a class followed by each of its superclasses. */
  function ClassesUntil(chain: seq<ClassDecl>, endCls: string): (r: seq<ClassDecl>)
    ensures |r| <= |chain| && r == chain[..|r|]
    ensures forall i :: 0 <= i < |r| ==> r[i].name != endCls
    ensures |r| < |chain| ==> chain[|r|].name == endCls
    decreases |chain|
  {
    if |chain| == 0 || chain[0].name == endCls then []
    else [chain[0]] + ClassesUntil(chain[1..], endCls)
  }

  /** The declarations of the given classes, class by class. */
  function Declarations(classes: seq<ClassDecl>): seq<PropertyDecl>
    decreases |classes|
  {
    if |classes| == 0 then []
    else Declarations(classes[..|classes| - 1]) + classes[|classes| - 1].properties
  }

  /** The declarations of a class come before those of its superclasses. */
  lemma {:induction false} DeclarationsCons(cl: ClassDecl, rest: seq<ClassDecl>)
    ensures Declarations([cl] + rest) == cl.properties + Declarations(rest)
    decreases |rest|
  {
    if |rest| == 0 {
      assert ([cl] + rest)[..0] == [];
    } else {
      var init := rest[..|rest| - 1];
      assert ([cl] + rest)[..|rest|] == [cl] + init;
      DeclarationsCons(cl, init);
    }
  }

  function Names(decls: seq<PropertyDecl>): (r: seq<string>)
    ensures |r| == |decls|
    ensures forall i :: 0 <= i < |decls| ==> r[i] == decls[i].name
  {
    seq(|decls|, i requires 0 <= i < |decls| => decls[i].name)
  }

  /** The declarations of a leading run of classes begin the declarations of all of them. */
  lemma {:induction false} DeclarationsPrefix(classes: seq<ClassDecl>, k: nat)
    requires k <= |classes|
    ensures var d := Declarations(classes[..k]);
            |d| <= |Declarations(classes)| && d == Declarations(classes)[..|d|]
    decreases |classes| - k
  {
    if k < |classes| {
      DeclarationsPrefix(classes, k + 1);
      assert classes[..k + 1][..k] == classes[..k];
    } else {
      assert classes[..k] == classes;
    }
  }

  /** Hands the names of one class's properties to the block in order, until
      it asks to stop; `count` is how many names it was handed. */
  method VisitClass(props: seq<PropertyDecl>, stop: string -> bool) returns (count: nat, stopped: bool)
    ensures count <= |props|
    ensures forall i :: 0 <= i < count - 1 ==> !stop(props[i].name)
    ensures !stopped ==> count == |props| && forall i :: 0 <= i < count ==> !stop(props[i].name)
    ensures stopped ==> count > 0 && stop(props[count - 1].name)
  {
    count := 0;
    stopped := false;
    while count < |props| && !stopped
      invariant count <= |props|
      invariant forall i :: 0 <= i < count - 1 ==> !stop(props[i].name)
      invariant !stopped ==> forall i :: 0 <= i < count ==> !stop(props[i].name)
      invariant stopped ==> count > 0 && stop(props[count - 1].name)
    {
      stopped := stop(props[count].name);
      count := count + 1;
    }
  }

  /** The names of the properties declared on the classes from `chain[0]`
      up to `endCls`, class by class. */
  function DeclaredNames(chain: seq<ClassDecl>, endCls: string): seq<string> {
    Names(Declarations(ClassesUntil(chain, endCls)))
  }

  /** The names handed to the block so far are the first names of `all`. */
  predicate NamesOf(visited: seq<string>, all: seq<PropertyDecl>) {
    |visited| <= |all| && forall i :: 0 <= i < |visited| ==> visited[i] == all[i].name
  }

  /** The block asked to stop at none of the names, except possibly the last. */
  predicate StoppedOnlyAtEnd(visited: seq<string>, stop: string -> bool, stopped: bool) {
    && (forall i :: 0 <= i < |visited| - 1 ==> !stop(visited[i]))
    && (!stopped ==> forall i :: 0 <= i < |visited| ==> !stop(visited[i]))
    && (stopped ==> |visited| > 0 && stop(visited[|visited| - 1]))
  }

  lemma ExtendVisited(all: seq<PropertyDecl>, visited: seq<string>, props: seq<PropertyDecl>, count: nat,
                      stop: string -> bool, stopped: bool)
    requires NamesOf(visited, all) && StoppedOnlyAtEnd(visited, stop, false)
    requires |visited| + |props| <= |all|
    requires forall j :: 0 <= j < |props| ==> all[|visited| + j] == props[j]
    requires count <= |props|
    requires forall i :: 0 <= i < count - 1 ==> !stop(props[i].name)
    requires !stopped ==> count == |props| && forall i :: 0 <= i < count ==> !stop(props[i].name)
    requires stopped ==> count > 0 && stop(props[count - 1].name)
    ensures NamesOf(visited + Names(props[..count]), all)
    ensures StoppedOnlyAtEnd(visited + Names(props[..count]), stop, stopped)
  {
  }

  /** `+enumeratePropertiesFromClass:untilClass:usingBlock:`. The block is
      modelled by `stop`, its decision to set `*stop` after seeing a name. The
      result lists the names handed to the block: those declared on each
      visited class, class by class, up to and including the first name the
      block stopped at. */
  method EnumerateProperties(chain: seq<ClassDecl>, endCls: string, stop: string -> bool)
    returns (visited: seq<string>)
    ensures |visited| <= |DeclaredNames(chain, endCls)|
    ensures visited == DeclaredNames(chain, endCls)[..|visited|]
    ensures forall i :: 0 <= i < |visited| - 1 ==> !stop(visited[i])
    ensures |visited| < |DeclaredNames(chain, endCls)| ==> |visited| > 0 && stop(visited[|visited| - 1])
  {
    ghost var classes := ClassesUntil(chain, endCls);
    ghost var all := Declarations(classes);
    visited := [];
    var stopped := false;
    var ci := 0;
    while ci < |chain| && chain[ci].name != endCls && !stopped
      invariant ci <= |classes|
      invariant forall j :: 0 <= j < ci ==> chain[j] == classes[j]
      invariant NamesOf(visited, all)
      invariant StoppedOnlyAtEnd(visited, stop, stopped)
      invariant !stopped ==> |visited| == |Declarations(classes[..ci])|
      decreases |chain| - ci
    {
      var props := chain[ci].properties;
      DeclarationsPrefix(classes, ci);
      DeclarationsPrefix(classes, ci + 1);
      assert classes[..ci + 1][..ci] == classes[..ci];
      assert forall j :: 0 <= j < |props| ==> all[|visited| + j] == props[j];
      var count, stoppedHere := VisitClass(props, stop);
      ExtendVisited(all, visited, props, count, stop, stoppedHere);
      visited := visited + Names(props[..count]);
      stopped := stoppedHere;
      ci := ci + 1;
    }
    if !stopped {
      assert ci == |classes|;
      assert classes[..ci] == classes;
    }
    assert StoppedOnlyAtEnd(visited, stop, stopped);
    assert |visited| < |all| ==> stopped;
    assert NamesOf(visited, all);
    assert visited == Names(all)[..|visited|];
    assert DeclaredNames(chain, endCls) == Names(all);
  }

  /** Starting at the end class itself visits nothing. */
  lemma EnumerationFromEndClassIsEmpty(chain: seq<ClassDecl>, endCls: string)
    requires |chain| > 0 && chain[0].name == endCls
    ensures DeclaredNames(chain, endCls) == []
  {
  }
}
