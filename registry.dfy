/** The process-wide class registry behind `makeInstance`: a cache from a class
    name to the empty constructor fabricated for it, created lazily on first
    use and never pruned. A constructor is modelled by the id it was given. */
module Classes {
  import opened JsValues

  /** The registry's state: class name to constructor id, and the next id. */
  datatype RegistryState = RegistryState(classes: map<string, nat>, nextId: nat)

  /** Every cached constructor is a distinct one, made before `nextId`. */
  predicate WellFormed(s: RegistryState) {
    && (forall n :: n in s.classes ==> s.classes[n] < s.nextId)
    && (forall a, b :: a in s.classes && b in s.classes && a != b ==> s.classes[a] != s.classes[b])
  }

  /** `!className || className === 'Object'` fails: the name the instance is
      made under, None for a plain object (absent, empty or `Object`). */
  function InstanceTypeName(className: Option<string>): (t: Option<string>)
    ensures t.None? <==> (className.None? || className.value == "" || className.value == "Object")
    ensures t.Some? ==> t == className
  {
    match className
    case None => None
    case Some(n) => if n == "" || n == "Object" then None else Some(n)
  }

  /** The names a `makeInstance(className)` call registers: none for a plain
      object, the class name otherwise. */
  function NamedClass(className: Option<string>): seq<string> {
    match InstanceTypeName(className)
    case None => []
    case Some(n) => [n]
  }

  /** `if (!classes[name]) classes[name] = <new constructor>`. */
  function Register(s: RegistryState, name: string): (t: RegistryState)
    ensures t.classes.Keys == s.classes.Keys + {name}
    ensures forall n :: n in s.classes ==> t.classes[n] == s.classes[n]
    ensures name in s.classes ==> t == s
    ensures WellFormed(s) ==> WellFormed(t)
  {
    if name in s.classes then s else RegistryState(s.classes[name := s.nextId], s.nextId + 1)
  }

  /** The registry after registering `names` in order. */
  function RegisterAll(s: RegistryState, names: seq<string>): RegistryState {
    if names == [] then s else Register(RegisterAll(s, names[..|names| - 1]), names[|names| - 1])
  }

  /** Registering a list of names adds exactly those names, keeps every entry
      that was there and keeps the registry well formed. */
  lemma {:induction false} RegisterAllGrows(s: RegistryState, names: seq<string>)
    ensures RegisterAll(s, names).classes.Keys == s.classes.Keys + (set n | n in names)
    ensures forall n :: n in s.classes ==> RegisterAll(s, names).classes[n] == s.classes[n]
    ensures WellFormed(s) ==> WellFormed(RegisterAll(s, names))
  {
    if names != [] {
      var init, last := names[..|names| - 1], names[|names| - 1];
      RegisterAllGrows(s, init);
      assert RegisterAll(s, names) == Register(RegisterAll(s, init), last);
      assert names == init + [last];
      assert (set n | n in names) == (set n | n in init) + {last};
    }
  }

  /** Registering `a` then `b` is registering `a + b`. */
  lemma {:induction false} RegisterAllAppend(s: RegistryState, a: seq<string>, b: seq<string>)
    ensures RegisterAll(s, a + b) == RegisterAll(RegisterAll(s, a), b)
    decreases |b|
  {
    if b == [] {
      assert a + b == a;
    } else {
      var init, last := b[..|b| - 1], b[|b| - 1];
      var ab := a + b;
      assert ab[..|ab| - 1] == a + init && ab[|ab| - 1] == last;
      calc {
        RegisterAll(s, ab);
        Register(RegisterAll(s, a + init), last);
        { RegisterAllAppend(s, a, init); }
        Register(RegisterAll(RegisterAll(s, a), init), last);
      }
    }
  }

  /** Names that are all cached already change nothing. */
  lemma {:induction false} RegisterAllKnown(s: RegistryState, names: seq<string>)
    requires forall k :: 0 <= k < |names| ==> names[k] in s.classes
    ensures RegisterAll(s, names) == s
  {
    if names != [] {
      RegisterAllKnown(s, names[..|names| - 1]);
    }
  }

  /** A repeat of the same registrations leaves the registry as it was. */
  lemma RegisterAllIdempotent(s: RegistryState, names: seq<string>)
    ensures RegisterAll(RegisterAll(s, names), names) == RegisterAll(s, names)
  {
    var t := RegisterAll(s, names);
    RegisterAllGrows(s, names);
    RegisterAllKnown(t, names);
  }

  /** The mutable registry object; the decoder holds one and passes it down. */
  class ClassRegistry {
    var classes: map<string, nat>
    var nextId: nat

    function State(): RegistryState
      reads this
    {
      RegistryState(classes, nextId)
    }

    ghost predicate Valid()
      reads this
    {
      WellFormed(State())
    }

    /** An empty registry, as at process start. */
    constructor ()
      ensures Valid() && classes == map[]
    {
      classes := map[];
      nextId := 0;
    }

    /** `makeInstance(className)`: a fresh empty object, plain for an absent,
        empty or `Object` class name and otherwise an instance of the cached
        constructor for that name, which is made first if there is none yet. */
    method MakeInstance(className: Option<string>) returns (o: Value)
      requires Valid()
      modifies this
      ensures Valid()
      ensures o == Record(InstanceTypeName(className), map[])
      ensures State() == RegisterAll(old(State()), NamedClass(className))
      ensures InstanceTypeName(className).None? ==> classes == old(classes)
      ensures InstanceTypeName(className).Some? ==>
                className.value in classes && classes.Keys == old(classes).Keys + {className.value}
      ensures forall n :: n in old(classes) ==> n in classes && classes[n] == old(classes[n])
    {
      var name := InstanceTypeName(className);
      if name.None? {
        return Record(None, map[]);
      }
      if name.value !in classes {
        classes := classes[name.value := nextId];
        nextId := nextId + 1;
      }
      o := Record(name, map[]);
      assert NamedClass(className) == [name.value];
      assert [name.value][..0] == [];
    }
  }
}
