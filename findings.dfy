/** The two tables of the decoder, `ERROR_CONSTRUCTORS` and the class cache,
    are object literals: a lookup by class name also finds what every object
    inherits from Object.prototype. This module models those lookups as
    written, next to the own-key lookups the rest of the model uses, and
    proves where they part. */
module Findings {
  import opened JsValues
  import opened Classes
  import opened Unmirror

  /** The properties an object literal inherits from Object.prototype. */
  const ObjectPrototypeKeys: set<string> := {
    "constructor", "__proto__", "hasOwnProperty", "isPrototypeOf", "propertyIsEnumerable",
    "toLocaleString", "toString", "valueOf",
    "__defineGetter__", "__defineSetter__", "__lookupGetter__", "__lookupSetter__"}

  /** What `table[key]` finds on an object literal: an own entry; the
      inherited `constructor`, which is the Object function; another
      inherited property, which is no constructor (`__proto__` is
      Object.prototype itself, the rest are plain methods); or nothing. */
  datatype Lookup<T> = Own(value: T) | InheritedObject | InheritedNonConstructor | Missing

  function LiteralLookup<T>(table: map<string, T>, key: string): (l: Lookup<T>)
    ensures l.Own? <==> key in table
    ensures key !in table && key !in ObjectPrototypeKeys ==> l.Missing?
  {
    if key in table then Own(table[key])
    else if key == "constructor" then InheritedObject
    else if key in ObjectPrototypeKeys then InheritedNonConstructor
    else Missing
  }

  // ---------------------------------------------------------------------------
  // `ERROR_CONSTRUCTORS[className] || Error`

  /** What `new Constructor(msg)` makes: an error of a kind, a String wrapper
      object (`new Object(msg)`), or a TypeError thrown because the value
      found is no constructor. */
  datatype Construction = Made(kind: ErrorKind) | StringObject | Throws

  /** The constructor choice as written; a missing class name is looked up
      under the key "undefined". */
  function ErrorConstructionAsWritten(className: Option<string>): Construction {
    var key := if className.Some? then className.value else "undefined";
    match LiteralLookup(ErrorConstructors, key)
    case Own(k) => Made(k)
    case InheritedObject => StringObject
    case InheritedNonConstructor => Throws
    case Missing => Made(Error)
  }

  /** As written, an error whose class name is `constructor` is rebuilt as a
      String object and one named `toString` makes the decoder throw; the
      own-key choice gives a plain Error for both. */
  lemma ErrorConstructionCounterexample()
    ensures ErrorConstructionAsWritten(Some("constructor")) == StringObject
    ensures ErrorConstructionAsWritten(Some("toString")) == Throws
    ensures ErrorKindOf(Some("constructor")) == Error && ErrorKindOf(Some("toString")) == Error
  {
  }

  /** The two choices agree exactly on the class names that are not
      Object.prototype keys. */
  lemma ErrorConstructionAgrees(className: Option<string>)
    ensures ErrorConstructionAsWritten(className) == Made(ErrorKindOf(className))
            <==> !(className.Some? && className.value in ObjectPrototypeKeys)
  {
    if className.Some? && className.value in ObjectPrototypeKeys {
      assert className.value !in ErrorConstructors;
    }
  }

  // ---------------------------------------------------------------------------
  // `if (!classes[className]) ...; return new (classes[className])()`

  /** `makeInstance` as written, on the registry state: the instance and the
      new state, or None when it throws. A name found through the inherited
      `constructor` counts as cached and yields `new Object()`, a plain
      object; any other inherited name counts as cached and is no
      constructor. */
  function MakeInstanceAsWritten(s: RegistryState, className: Option<string>): Option<(Value, RegistryState)> {
    match InstanceTypeName(className)
    case None => Some((Record(None, map[]), s))
    case Some(n) =>
      match LiteralLookup(s.classes, n)
      case Own(_) => Some((Record(Some(n), map[]), s))
      case InheritedObject => Some((Record(None, map[]), s))
      case InheritedNonConstructor => None
      case Missing => Some((Record(Some(n), map[]), Register(s, n)))
  }

  /** As written, a class named `constructor` is never registered and its
      instances are plain objects, and one named `toString` makes the decoder
      throw; `ClassRegistry.MakeInstance` registers both. */
  lemma MakeInstanceCounterexample(s: RegistryState)
    requires "constructor" !in s.classes && "toString" !in s.classes
    ensures MakeInstanceAsWritten(s, Some("constructor")) == Some((Record(None, map[]), s))
    ensures MakeInstanceAsWritten(s, Some("toString")) == None
    ensures "constructor" in RegisterAll(s, NamedClass(Some("constructor"))).classes
    ensures InstanceTypeName(Some("constructor")) == Some("constructor")
  {
    assert NamedClass(Some("constructor")) == ["constructor"];
    assert ["constructor"][..0] == [];
  }

  /** On every class name that is not an Object.prototype key, or that is
      cached already, the code as written does what `ClassRegistry.MakeInstance`
      does: the same instance and the same registry afterwards. */
  lemma MakeInstanceAgrees(s: RegistryState, className: Option<string>)
    requires className.None? || className.value !in ObjectPrototypeKeys || className.value in s.classes
    ensures MakeInstanceAsWritten(s, className)
            == Some((Record(InstanceTypeName(className), map[]), RegisterAll(s, NamedClass(className))))
  {
    if InstanceTypeName(className).Some? {
      var n := InstanceTypeName(className).value;
      assert NamedClass(className) == [n];
      assert [n][..0] == [];
    }
  }
}
