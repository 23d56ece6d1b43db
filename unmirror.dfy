/** `unmirror`: rebuilds a local value from a remote-object summary.

    `Decode` is the value `unmirror` returns, as a function of the summary and
    of the host's `JSON.parse`; `ClassVisits` lists, in call order, the class
    names its `makeInstance` calls register. The methods below follow the
    source's control flow (loops over the preview entries, the registry
    updated in place) and are proved to return `Decode` and to leave the
    registry as `RegisterAll` of `ClassVisits` says.

    `parse` stands for the host's `JSON.parse` applied to a value (after its
    own string conversion): `Some(v)` when it returns v, `None` when it throws. */
module Unmirror {
  import opened JsValues
  import opened JsText
  import opened Classes

  /** The branch `unmirror` takes, in the order the source tests them: first on
      `type`, then on `subtype`, and a plain object when nothing matched. */
  datatype Branch =
    | AsString | AsFunction | AsUndefined | AsBoolean | AsSymbol | AsNumber
    | AsNull | AsDate | AsNode | AsRegexp | AsError | AsMap | AsSet | AsArray | AsObject

  /** The `type` tags tested before any `subtype`. */
  const TypeTags: set<string> := {"string", "function", "undefined", "boolean", "symbol", "number"}

  /** The `subtype` tags tested, in the source's order. */
  const SubtypeTags: set<string> := {"null", "date", "node", "regexp", "error", "map", "set", "array"}

  function BranchOf(r: RemoteObj): (b: Branch)
    ensures r.typ in TypeTags <==> b in {AsString, AsFunction, AsUndefined, AsBoolean, AsSymbol, AsNumber}
    ensures b == AsObject <==> r.typ !in TypeTags && (r.subtype.None? || r.subtype.value !in SubtypeTags)
  {
    if r.typ == "string" then AsString
    else if r.typ == "function" then AsFunction
    else if r.typ == "undefined" then AsUndefined
    else if r.typ == "boolean" then AsBoolean
    else if r.typ == "symbol" then AsSymbol
    else if r.typ == "number" then AsNumber
    else if r.subtype == Some("null") then AsNull
    else if r.subtype == Some("date") then AsDate
    else if r.subtype == Some("node") then AsNode
    else if r.subtype == Some("regexp") then AsRegexp
    else if r.subtype == Some("error") then AsError
    else if r.subtype == Some("map") then AsMap
    else if r.subtype == Some("set") then AsSet
    else if r.subtype == Some("array") then AsArray
    else AsObject
  }

  /** The branches that never look at the preview. */
  predicate IsLeaf(b: Branch) {
    !(b == AsRegexp || b == AsError || b == AsArray || b == AsObject)
  }

  /** The preview entries `unmirror` is applied to: every entry of an error,
      array or plain object, and of a regexp only `global`, `ignoreCase`,
      `multiline` and `lastIndex`. */
  predicate Recursed(b: Branch, name: string) {
    || b == AsError || b == AsArray || b == AsObject
    || (b == AsRegexp && (name == "global" || name == "ignoreCase" || name == "multiline" || name == "lastIndex"))
  }

  /** Entry j is the last one named `name`. */
  predicate IsLastNamed(ps: seq<Prop>, j: int, name: string) {
    0 <= j < |ps| && ps[j].name == name && forall k :: j < k < |ps| ==> ps[k].name != name
  }

  /** The names of the entries. */
  function Names(ps: seq<Prop>): set<string> {
    set p | p in ps :: p.name
  }

  // ---------------------------------------------------------------------------
  // When `unmirror` returns at all

  /** The summaries on which none of the throw sites this model covers fires
      (the host constructors' own throws are not among them): every entry
      `unmirror` recurses into is one; a regexp whose last `source` entry is
      missing has a description to parse, and a `source` entry carries a
      string, as the protocol's PropertyPreview does;
      an error's entries, other than `message` and `stack` (which the error
      already owns, configurably), are defined once each, since a second
      non-configurable definition throws; the properties of a plain object
      are assigned onto an object value only when it is a record; and no
      entry of a plain object follows an assignment to an inherited
      `__proto__` (see `ProtoAssignedLast`). */
  predicate Decodable(r: RemoteObj)
    decreases r
  {
    var ps := PropsOf(r);
    && (forall i :: 0 <= i < |ps| && Recursed(BranchOf(r), ps[i].name) ==> Decodable(ps[i].summary))
    && BranchSound(r)
  }

  /** The conditions of `Decodable` on the summary itself, branch by branch. */
  predicate BranchSound(r: RemoteObj) {
    var ps := PropsOf(r);
    var b := BranchOf(r);
    && (b == AsRegexp ==> RegexpSourceReadable(r))
    && (b == AsError ==> DefinableOnError(ps))
    && (b == AsObject && IsObject(r.value) && !r.value.Record? ==> ps == [])
    && (b == AsObject ==> ProtoAssignedLast(r))
  }

  /** An assignment to `__proto__` on an object that does not own that
      property reaches the setter Object.prototype provides, which replaces
      the prototype when the value is an object or null. The entries after it
      would be assigned through whatever the new prototype defines: a
      getter-only accessor such as `Map.prototype.size` throws in strict
      code, and under a null prototype `__proto__` is an ordinary property.
      The model keeps to plain objects where no entry follows such an
      assignment, or that own `__proto__` already. */
  predicate ProtoAssignedLast(r: RemoteObj) {
    var ps := PropsOf(r);
    || (r.value.Record? && "__proto__" in r.value.fields)
    || forall i :: 0 <= i < |ps| - 1 ==> ps[i].name != "__proto__"
  }

  predicate RegexpSourceReadable(r: RemoteObj) {
    var source := LastSource(PropsOf(r));
    && (source.Str? || source.Undefined?)
    && (source.Undefined? ==> r.description.Some?)
  }

  predicate DefinableOnError(ps: seq<Prop>) {
    forall i, j :: 0 <= i < j < |ps| && ps[i].name == ps[j].name ==>
      ps[i].name == "message" || ps[i].name == "stack"
  }

  // ---------------------------------------------------------------------------
  // The value `unmirror` returns

  function Decode(r: RemoteObj, parse: Value -> Option<Value>): Value
    requires Decodable(r)
    decreases r, 1
  {
    match BranchOf(r)
    case AsRegexp => RegexpOf(r, DecodedProps(r, parse))
    case AsError => ErrorOf(r, DecodedProps(r, parse))
    case AsArray => Arr(DecodedProps(r, parse))
    case AsObject => ObjectOf(r, DecodedProps(r, parse))
    case _ => DecodeLeaf(r, parse)
  }

  /** The decoded preview entries, in order; an entry `unmirror` does not
      recurse into is left Undefined (it is never read). */
  function DecodedProps(r: RemoteObj, parse: Value -> Option<Value>): (ds: seq<Value>)
    requires Decodable(r)
    ensures |ds| == |PropsOf(r)|
    decreases r, 0
  {
    var ps := PropsOf(r);
    seq(|ps|, i requires 0 <= i < |ps| =>
      if Recursed(BranchOf(r), ps[i].name) then Decode(ps[i].summary, parse) else Undefined)
  }

  /** The branches that return without looking at the preview. */
  function DecodeLeaf(r: RemoteObj, parse: Value -> Option<Value>): Value
    requires IsLeaf(BranchOf(r))
  {
    match BranchOf(r)
    case AsString => r.value
    case AsFunction => Func
    case AsUndefined => Undefined
    case AsBoolean => DecodeBoolean(r.value)
    case AsSymbol => Sym(SymbolDescription(r.description))
    case AsNumber => DecodeNumber(r.value, parse)
    case AsNull => Null
    case AsDate => Date(r.description)
    case AsNode => if r.className.Some? then Str(r.className.value) else Undefined
    case AsMap => EmptyMap
    case AsSet => EmptySet
  }

  /** `value === 'true' || value === true`. */
  function DecodeBoolean(value: Value): Value {
    Bool(value == Str("true") || value == Bool(true))
  }

  /** A number arrives either as a number or, from the Console domain, as text. */
  function DecodeNumber(value: Value, parse: Value -> Option<Value>): Value {
    if value.Num? then value
    else if value == Str("NaN") then Num(NaN)
    else if value == Str("-Infinity") then Num(NegInfinity)
    else if value == Str("Infinity") then Num(Infinity)
    else if value == Str("-0") then Num(NegZero)
    else MaybeJson(value, Undefined, parse)
  }

  /** `maybeJSON(value, notSetValue)`: the unset default for a missing value,
      otherwise what `JSON.parse` makes of it, or the value itself when
      parsing throws. */
  function MaybeJson(value: Value, notSetValue: Value, parse: Value -> Option<Value>): (v: Value)
    ensures value == Undefined ==> v == notSetValue
    ensures value != Undefined && parse(value).None? ==> v == value
    ensures value != Undefined && parse(value).Some? ==> v == parse(value).value
  {
    if value == Undefined then notSetValue
    else match parse(value)
      case Some(parsed) => parsed
      case None => value
  }

  // ---------------------------------------------------------------------------
  // Symbols

  /** `Symbol((match && match[1]) || undefined)` for the match of
      /Symbol\((.*)\)/ on `description || ''`: the description of the new
      symbol, None when there is no match or the capture is empty. */
  function SymbolDescription(description: Option<string>): Option<string> {
    match SymbolMatch(description.GetOr(""), 0)
    case Some(c) => if c == "" then None else Some(c)
    case None => None
  }

  /** The capture of /Symbol\((.*)\)/ at the leftmost position from `k` where
      it matches: after `Symbol(`, the greedy `.*` runs to the end of the line
      and backs up to its last `)`. */
  function SymbolMatch(d: string, k: nat): Option<string>
    decreases |d| - k
  {
    if k + 7 > |d| then None
    else if d[k..k + 7] == "Symbol(" then
      var e := LineEnd(d, k + 7);
      var j := LastIndexOf(d[k + 7..e], ')');
      if j >= 0 then Some(d[k + 7..k + 7 + j]) else SymbolMatch(d, k + 1)
    else SymbolMatch(d, k + 1)
  }

  /** The first line terminator at or after `k`, or the end of the text. */
  function LineEnd(d: string, k: nat): (e: nat)
    requires k <= |d|
    ensures k <= e <= |d|
    ensures forall i :: k <= i < e ==> !IsLineTerminator(d[i])
    ensures e < |d| ==> IsLineTerminator(d[e])
    decreases |d| - k
  {
    if k == |d| || IsLineTerminator(d[k]) then k else LineEnd(d, k + 1)
  }

  // ---------------------------------------------------------------------------
  // Regular expressions

  /** The last `source` entry's raw value, Undefined when there is none. */
  function LastSource(ps: seq<Prop>): Value {
    if ps == [] then Undefined
    else if ps[|ps| - 1].name == "source" then ps[|ps| - 1].summary.value
    else LastSource(ps[..|ps| - 1])
  }

  datatype FlagScan = FlagScan(flags: string, lastIndex: Value)

  /** The flags and `lastIndex` gathered from the entries, one at a time. */
  function ScanFlags(ps: seq<Prop>, ds: seq<Value>): FlagScan
    requires |ps| == |ds|
  {
    if ps == [] then FlagScan("", Undefined)
    else FlagStep(ScanFlags(ps[..|ps| - 1], ds[..|ds| - 1]), ps[|ps| - 1].name, ds[|ds| - 1])
  }

  /** One entry: a truthy `global`, `ignoreCase` or `multiline` appends its
      flag letter; `lastIndex` replaces the cursor. */
  function FlagStep(scan: FlagScan, name: string, d: Value): FlagScan {
    if name == "global" && Truthy(d) then scan.(flags := scan.flags + "g")
    else if name == "ignoreCase" && Truthy(d) then scan.(flags := scan.flags + "i")
    else if name == "multiline" && Truthy(d) then scan.(flags := scan.flags + "m")
    else if name == "lastIndex" then scan.(lastIndex := d)
    else scan
  }

  /** The pattern and flags of a `/pattern/flags` description: the first
      character is the delimiter and its last occurrence closes the pattern. An
      empty description gives both empty, since `"".lastIndexOf(undefined)` is
      -1. */
  function TextualRegex(d: string): (string, string) {
    if d == [] then ("", "")
    else
      var i := LastIndexOf(d, d[0]);
      (if i >= 1 then d[1..i] else "", d[i + 1..])
  }

  function RegexpOf(r: RemoteObj, ds: seq<Value>): Value
    requires RegexpSourceReadable(r) && |ds| == |PropsOf(r)|
  {
    var ps := PropsOf(r);
    var scan := ScanFlags(ps, ds);
    var source := LastSource(ps);
    if source == Undefined then
      var (pattern, flags) := TextualRegex(r.description.value);
      Regex(pattern, flags, scan.lastIndex)
    else
      Regex(source.s, scan.flags, scan.lastIndex)
  }

  // ---------------------------------------------------------------------------
  // Errors

  /** `ERROR_CONSTRUCTORS`. */
  const ErrorConstructors: map<string, ErrorKind> := map[
    "Error" := Error, "EvalError" := EvalError, "InternalError" := Error,
    "RangeError" := RangeError, "ReferenceError" := ReferenceError,
    "SyntaxError" := SyntaxError, "TypeError" := TypeError, "URIError" := URIError]

  /** `ERROR_CONSTRUCTORS[className] || Error`, looking at the table's own
      entries only. */
  function ErrorKindOf(className: Option<string>): ErrorKind {
    if className.Some? && className.value in ErrorConstructors then ErrorConstructors[className.value]
    else Error
  }

  /** The constructor's own name. */
  function KindName(k: ErrorKind): string {
    match k
    case Error => "Error"
    case EvalError => "EvalError"
    case RangeError => "RangeError"
    case ReferenceError => "ReferenceError"
    case SyntaxError => "SyntaxError"
    case TypeError => "TypeError"
    case URIError => "URIError"
  }

  /** The message and the stack text of an error description: the first line
      is the message, with `className` and the one character after it cut off
      and the rest trimmed when the line starts with a non-empty `className`;
      the other lines, joined again, are the stack. */
  function ErrorText(description: Option<string>, className: Option<string>): (string, string) {
    var lines := Split(description.GetOr(""), '\n');
    var first := lines[0];
    var msg :=
      if className.Some? && className.value != "" && StartsWith(first, className.value)
      then Trim(Drop(first, |className.value| + 1))
      else first;
    (msg, Join(lines[1..], '\n'))
  }

  /** The own properties of `new Constructor(msg)`: the message, and the
      host's stack trace unless the description's stack text replaced it. */
  function ErrorBase(msg: string, stack: string): map<string, Value> {
    map["message" := Str(msg), "stack" := if stack != "" then Str(stack) else HostStack]
  }

  function ErrorOf(r: RemoteObj, ds: seq<Value>): Value
    requires |ds| == |PropsOf(r)|
  {
    var (msg, stack) := ErrorText(r.description, r.className);
    Err(ErrorKindOf(r.className), Assign(ErrorBase(msg, stack), PropsOf(r), ds, ByDefine))
  }

  // ---------------------------------------------------------------------------
  // Setting the entries on the target

  /** How an entry is written: the error branch uses `Object.defineProperty`,
      the plain-object branch the assignment `o[name] = value`. */
  datatype Write = ByDefine | ByAssignment

  /** One entry written onto the own properties `own`. A definition always
      makes an own property. So does an assignment, except to `__proto__`
      when the object has no own property of that name: that reaches the
      accessor Object.prototype provides, which makes no own property. */
  function Written(own: map<string, Value>, name: string, d: Value, how: Write): map<string, Value> {
    if how == ByAssignment && name == "__proto__" && name !in own then own else own[name := d]
  }

  /** Every entry written onto `base`, in order. */
  function Assign(base: map<string, Value>, ps: seq<Prop>, ds: seq<Value>, how: Write): map<string, Value>
    requires |ps| == |ds|
  {
    if ps == [] then base
    else Written(Assign(base, ps[..|ps| - 1], ds[..|ds| - 1], how), ps[|ps| - 1].name, ds[|ds| - 1], how)
  }

  function ObjectOf(r: RemoteObj, ds: seq<Value>): Value
    requires |ds| == |PropsOf(r)|
  {
    var o := if IsObject(r.value) then r.value else Record(InstanceTypeName(r.className), map[]);
    if o.Record? then Record(o.typeName, Assign(o.fields, PropsOf(r), ds, ByAssignment)) else o
  }

  // ---------------------------------------------------------------------------
  // What `unmirror` registers

  /** The class names registered while decoding `r`, in call order. */
  function ClassVisits(r: RemoteObj): seq<string>
    decreases r, 1
  {
    var b := BranchOf(r);
    if IsLeaf(b) then []
    else (if b == AsObject && !IsObject(r.value) then NamedClass(r.className) else [])
         + Flatten(PropVisits(r))
  }

  /** Per preview entry, the names registered while decoding it. */
  function PropVisits(r: RemoteObj): (vs: seq<seq<string>>)
    ensures |vs| == |PropsOf(r)|
    decreases r, 0
  {
    var ps := PropsOf(r);
    seq(|ps|, i requires 0 <= i < |ps| =>
      if Recursed(BranchOf(r), ps[i].name) then ClassVisits(ps[i].summary) else [])
  }

  /** The sequences joined end to end. */
  function Flatten<T>(ss: seq<seq<T>>): seq<T> {
    if ss == [] then [] else Flatten(ss[..|ss| - 1]) + ss[|ss| - 1]
  }

  // ---------------------------------------------------------------------------
  // The decoder

  /** `unmirror(remoteObj)`, with the class registry passed in. */
  method Unmirror(reg: ClassRegistry, r: RemoteObj, parse: Value -> Option<Value>) returns (v: Value)
    requires reg.Valid() && Decodable(r)
    modifies reg
    ensures reg.Valid()
    ensures v == Decode(r, parse)
    ensures reg.State() == RegisterAll(old(reg.State()), ClassVisits(r))
    decreases r, 2
  {
    match BranchOf(r)
    case AsRegexp => v := UnmirrorRegexp(reg, r, parse);
    case AsError => v := UnmirrorError(reg, r, parse);
    case AsArray => v := UnmirrorArray(reg, r, parse);
    case AsObject => v := UnmirrorObject(reg, r, parse);
    case _ => v := DecodeLeaf(r, parse);
  }

  /** The regexp branch: the structured entries first, then, with no `source`
      among them, the description. */
  method UnmirrorRegexp(reg: ClassRegistry, r: RemoteObj, parse: Value -> Option<Value>) returns (v: Value)
    requires reg.Valid() && Decodable(r) && BranchOf(r) == AsRegexp
    modifies reg
    ensures reg.Valid()
    ensures v == Decode(r, parse)
    ensures reg.State() == RegisterAll(old(reg.State()), ClassVisits(r))
    decreases r, 1
  {
    var source, flags, lastIndex := ScanRegexpEntries(reg, r, parse);
    assert ClassVisits(r) == Flatten(PropVisits(r));
    if source == Undefined {
      var pattern, textFlags := TextualRegex(r.description.value).0, TextualRegex(r.description.value).1;
      v := Regex(pattern, textFlags, lastIndex);
    } else {
      v := Regex(source.s, flags, lastIndex);
    }
  }

  /** The `props.forEach` of the regexp branch: the last `source`, the flags
      of the truthy `global`, `ignoreCase` and `multiline` entries, and the
      decoded `lastIndex`. */
  method ScanRegexpEntries(reg: ClassRegistry, r: RemoteObj, parse: Value -> Option<Value>)
    returns (source: Value, flags: string, lastIndex: Value)
    requires reg.Valid() && Decodable(r) && BranchOf(r) == AsRegexp
    modifies reg
    ensures reg.Valid()
    ensures source == LastSource(PropsOf(r))
    ensures FlagScan(flags, lastIndex) == ScanFlags(PropsOf(r), DecodedProps(r, parse))
    ensures reg.State() == RegisterAll(old(reg.State()), Flatten(PropVisits(r)))
    decreases r, 0
  {
    var ps := PropsOf(r);
    ghost var ds := DecodedProps(r, parse);
    ghost var visits := PropVisits(r);
    source, flags, lastIndex := Undefined, "", Undefined;
    var i := 0;
    assert visits[..0] == [] && Flatten<string>([]) == [];
    while i < |ps|
      invariant 0 <= i <= |ps|
      invariant reg.Valid()
      invariant source == LastSource(ps[..i])
      invariant FlagScan(flags, lastIndex) == ScanFlags(ps[..i], ds[..i])
      invariant reg.State() == RegisterAll(old(reg.State()), Flatten(visits[..i]))
    {
      var p := ps[i];
      Entry(r, parse, i);
      ghost var before := reg.State();
      source, flags, lastIndex := RegexpEntry(reg, p, parse, source, flags, lastIndex);
      assert reg.State() == RegisterAll(before, visits[i]);
      ScanStep(ps, ds, i);
      Step(ps, ds, visits, i);
      RegisterAllAppend(old(reg.State()), Flatten(visits[..i]), visits[i]);
      assert reg.State() == RegisterAll(old(reg.State()), Flatten(visits[..i + 1]));
      i := i + 1;
    }
    assert ps[..i] == ps && ds[..i] == ds && visits[..i] == visits;
  }

  /** One entry of the regexp branch's `props.forEach`. */
  method RegexpEntry(reg: ClassRegistry, p: Prop, parse: Value -> Option<Value>,
                     source: Value, flags: string, lastIndex: Value)
    returns (source': Value, flags': string, lastIndex': Value)
    requires reg.Valid() && (Recursed(AsRegexp, p.name) ==> Decodable(p.summary))
    modifies reg
    ensures reg.Valid()
    ensures source' == if p.name == "source" then p.summary.value else source
    ensures FlagScan(flags', lastIndex')
            == FlagStep(FlagScan(flags, lastIndex), p.name,
                        if Recursed(AsRegexp, p.name) then Decode(p.summary, parse) else Undefined)
    ensures reg.State()
            == RegisterAll(old(reg.State()), if Recursed(AsRegexp, p.name) then ClassVisits(p.summary) else [])
    decreases p.summary, 4
  {
    source', flags', lastIndex' := source, flags, lastIndex;
    if p.name == "source" {
      source' := p.summary.value;
    } else if p.name == "global" {
      flags' := FlagEntry(reg, p.summary, parse, flags, 'g');
    } else if p.name == "ignoreCase" {
      flags' := FlagEntry(reg, p.summary, parse, flags, 'i');
    } else if p.name == "multiline" {
      flags' := FlagEntry(reg, p.summary, parse, flags, 'm');
    } else if p.name == "lastIndex" {
      lastIndex' := Unmirror(reg, p.summary, parse);
    }
  }

  /** A flag entry: its letter is appended when the entry decodes to a
      truthy value. */
  method FlagEntry(reg: ClassRegistry, summary: RemoteObj, parse: Value -> Option<Value>,
                   flags: string, letter: char)
    returns (flags': string)
    requires reg.Valid() && Decodable(summary)
    modifies reg
    ensures reg.Valid()
    ensures flags' == if Truthy(Decode(summary, parse)) then flags + [letter] else flags
    ensures reg.State() == RegisterAll(old(reg.State()), ClassVisits(summary))
    decreases summary, 3
  {
    var d := Unmirror(reg, summary, parse);
    flags' := if Truthy(d) then flags + [letter] else flags;
  }

  /** The error branch: the error made from the description, then each entry
      defined on it. */
  method UnmirrorError(reg: ClassRegistry, r: RemoteObj, parse: Value -> Option<Value>) returns (v: Value)
    requires reg.Valid() && Decodable(r) && BranchOf(r) == AsError
    modifies reg
    ensures reg.Valid()
    ensures v == Decode(r, parse)
    ensures reg.State() == RegisterAll(old(reg.State()), ClassVisits(r))
    decreases r, 1
  {
    ghost var ds := DecodedProps(r, parse);
    assert Decode(r, parse) == ErrorOf(r, ds);
    var kind := ErrorKindOf(r.className);
    var (msg, stack) := ErrorText(r.description, r.className);
    var own := map["message" := Str(msg), "stack" := HostStack];
    if stack != "" {
      own := own["stack" := Str(stack)];
    }
    assert own == ErrorBase(msg, stack);
    EntriesDecoded(r, parse);
    own := DefineEntries(reg, r, PropsOf(r), ds, PropVisits(r), parse, own, ByDefine);
    assert ClassVisits(r) == Flatten(PropVisits(r));
    v := Err(kind, own);
  }

  /** The array branch: `props.map(unmirror)`. */
  method UnmirrorArray(reg: ClassRegistry, r: RemoteObj, parse: Value -> Option<Value>) returns (v: Value)
    requires reg.Valid() && Decodable(r) && BranchOf(r) == AsArray
    modifies reg
    ensures reg.Valid()
    ensures v == Decode(r, parse)
    ensures reg.State() == RegisterAll(old(reg.State()), ClassVisits(r))
    decreases r, 1
  {
    var ps := PropsOf(r);
    ghost var ds := DecodedProps(r, parse);
    ghost var visits := PropVisits(r);
    var items: seq<Value> := [];
    var i := 0;
    while i < |ps|
      invariant 0 <= i <= |ps|
      invariant reg.Valid()
      invariant items == ds[..i]
      invariant reg.State() == RegisterAll(old(reg.State()), Flatten(visits[..i]))
    {
      Entry(r, parse, i);
      var d := Unmirror(reg, ps[i].summary, parse);
      items := items + [d];
      Step(ps, ds, visits, i);
      RegisterAllAppend(old(reg.State()), Flatten(visits[..i]), visits[i]);
      i := i + 1;
    }
    assert ds[..i] == ds && visits[..i] == visits;
    assert ClassVisits(r) == Flatten(visits);
    v := Arr(items);
  }

  /** The plain-object branch: the object value itself, or a new instance
      from the registry, with every entry assigned onto it. */
  method UnmirrorObject(reg: ClassRegistry, r: RemoteObj, parse: Value -> Option<Value>) returns (v: Value)
    requires reg.Valid() && Decodable(r) && BranchOf(r) == AsObject
    modifies reg
    ensures reg.Valid()
    ensures v == Decode(r, parse)
    ensures reg.State() == RegisterAll(old(reg.State()), ClassVisits(r))
    decreases r, 1
  {
    ghost var ds := DecodedProps(r, parse);
    assert Decode(r, parse) == ObjectOf(r, ds);
    var o: Value;
    if IsObject(r.value) {
      o := r.value;
    } else {
      o := reg.MakeInstance(r.className);
    }
    assert o == if IsObject(r.value) then r.value else Record(InstanceTypeName(r.className), map[]);
    ghost var named := if IsObject(r.value) then [] else NamedClass(r.className);
    ghost var mid := reg.State();
    assert mid == RegisterAll(old(reg.State()), named);
    if !o.Record? {
      // an object value other than a record comes with no entries
      assert PropVisits(r) == [] && ClassVisits(r) == named;
      return o;
    }
    EntriesDecoded(r, parse);
    var fields := DefineEntries(reg, r, PropsOf(r), ds, PropVisits(r), parse, o.fields, ByAssignment);
    RegisterAllAppend(old(reg.State()), named, Flatten(PropVisits(r)));
    v := Record(o.typeName, fields);
  }

  /** `props.forEach(p => target[p.name] = unmirror(p))` of the plain-object
      branch, and the `Object.defineProperty` loop of the error branch: every
      entry decoded and written on the target, in order. `ds` and `visits`
      are what decoding each entry gives and registers; `r` is the summary
      the entries came from. */
  method DefineEntries(reg: ClassRegistry, ghost r: RemoteObj, ps: seq<Prop>, ghost ds: seq<Value>,
                       ghost visits: seq<seq<string>>, parse: Value -> Option<Value>,
                       target: map<string, Value>, how: Write)
    returns (m: map<string, Value>)
    requires reg.Valid() && |ps| == |ds| == |visits|
    requires forall i :: 0 <= i < |ps| ==>
               && ps[i].summary < r && Decodable(ps[i].summary)
               && ds[i] == Decode(ps[i].summary, parse) && visits[i] == ClassVisits(ps[i].summary)
    modifies reg
    ensures reg.Valid()
    ensures m == Assign(target, ps, ds, how)
    ensures reg.State() == RegisterAll(old(reg.State()), Flatten(visits))
    decreases r, 0
  {
    m := target;
    var i := 0;
    while i < |ps|
      invariant 0 <= i <= |ps|
      invariant reg.Valid()
      invariant m == Assign(target, ps[..i], ds[..i], how)
      invariant reg.State() == RegisterAll(old(reg.State()), Flatten(visits[..i]))
    {
      m := DefineEntry(reg, ps[i], parse, m, how);
      AssignStep(target, ps, ds, how, i);
      Step(ps, ds, visits, i);
      RegisterAllAppend(old(reg.State()), Flatten(visits[..i]), visits[i]);
      i := i + 1;
    }
    assert ps[..i] == ps && ds[..i] == ds && visits[..i] == visits;
  }

  /** The entries of an error or a plain object, each decoded. */
  lemma EntriesDecoded(r: RemoteObj, parse: Value -> Option<Value>)
    requires Decodable(r) && (BranchOf(r) == AsError || BranchOf(r) == AsObject)
    ensures forall i :: 0 <= i < |PropsOf(r)| ==>
              && PropsOf(r)[i].summary < r && Decodable(PropsOf(r)[i].summary)
              && DecodedProps(r, parse)[i] == Decode(PropsOf(r)[i].summary, parse)
              && PropVisits(r)[i] == ClassVisits(PropsOf(r)[i].summary)
  {
    forall i | 0 <= i < |PropsOf(r)| {
      Entry(r, parse, i);
    }
  }

  /** The loop body: the entry decoded, then written on the target. */
  method DefineEntry(reg: ClassRegistry, p: Prop, parse: Value -> Option<Value>,
                     m: map<string, Value>, how: Write)
    returns (m': map<string, Value>)
    requires reg.Valid() && Decodable(p.summary)
    modifies reg
    ensures reg.Valid()
    ensures m' == Written(m, p.name, Decode(p.summary, parse), how)
    ensures reg.State() == RegisterAll(old(reg.State()), ClassVisits(p.summary))
    decreases p.summary, 3
  {
    var d := Unmirror(reg, p.summary, parse);
    if how == ByAssignment && p.name == "__proto__" && "__proto__" !in m {
      // the inherited `__proto__` setter takes the value; no own property
      m' := m;
    } else {
      m' := m[p.name := d];
    }
  }

  /** What the folds see of entry i. */
  lemma Entry(r: RemoteObj, parse: Value -> Option<Value>, i: nat)
    requires Decodable(r) && i < |PropsOf(r)|
    ensures PropsOf(r)[i].summary < r
    ensures Recursed(BranchOf(r), PropsOf(r)[i].name) ==>
              && Decodable(PropsOf(r)[i].summary)
              && DecodedProps(r, parse)[i] == Decode(PropsOf(r)[i].summary, parse)
              && PropVisits(r)[i] == ClassVisits(PropsOf(r)[i].summary)
    ensures !Recursed(BranchOf(r), PropsOf(r)[i].name) ==> PropVisits(r)[i] == []
  {
  }

  /** The regexp scan over one more entry. */
  lemma ScanStep(ps: seq<Prop>, ds: seq<Value>, i: nat)
    requires |ps| == |ds| && i < |ps|
    ensures ScanFlags(ps[..i + 1], ds[..i + 1]) == FlagStep(ScanFlags(ps[..i], ds[..i]), ps[i].name, ds[i])
    ensures LastSource(ps[..i + 1]) == if ps[i].name == "source" then ps[i].summary.value else LastSource(ps[..i])
  {
    assert ps[..i + 1][..i] == ps[..i] && ds[..i + 1][..i] == ds[..i];
  }

  /** The assignments of one more entry. */
  lemma AssignStep(base: map<string, Value>, ps: seq<Prop>, ds: seq<Value>, how: Write, i: nat)
    requires |ps| == |ds| && i < |ps|
    ensures Assign(base, ps[..i + 1], ds[..i + 1], how) == Written(Assign(base, ps[..i], ds[..i], how), ps[i].name, ds[i], how)
  {
    assert ps[..i + 1][..i] == ps[..i] && ds[..i + 1][..i] == ds[..i];
  }

  /** Taking one more entry extends each fold by that entry. */
  lemma Step(ps: seq<Prop>, ds: seq<Value>, visits: seq<seq<string>>, i: nat)
    requires |ps| == |ds| == |visits| && i < |ps|
    ensures ps[..i + 1][..i] == ps[..i] && ps[..i + 1][i] == ps[i]
    ensures ds[..i + 1][..i] == ds[..i] && ds[..i + 1][i] == ds[i]
    ensures ds[..i + 1] == ds[..i] + [ds[i]]
    ensures Flatten(visits[..i + 1]) == Flatten(visits[..i]) + visits[i]
  {
    assert visits[..i + 1][..i] == visits[..i];
  }
}
