/** The two sides of the decoder: the remote-object summaries of the Chrome
    DevTools Protocol (`Runtime.RemoteObject` with its shallow property
    preview) and the local JavaScript values rebuilt from them. */
module JsValues {

  datatype Option<+T> = None | Some(value: T) {
    function GetOr(default: T): T {
      match this
      case Some(v) => v
      case None => default
    }
  }

  /** A JavaScript number. The special IEEE-754 values the protocol spells out
      as text are tags of their own; every other number is a finite real. */
  datatype Number = Finite(x: real) | NaN | Infinity | NegInfinity | NegZero

  /** The constructors an error summary can be rebuilt with. */
  datatype ErrorKind =
    | Error | EvalError | RangeError | ReferenceError | SyntaxError | TypeError | URIError

  /** A local value the decoder can produce, or the raw `value` a summary
      carries. `Sym` keeps only the description of a freshly made symbol
      (None for an anonymous one); `Date` keeps the text the date was parsed
      from; an `Err` keeps its kind and its own properties (the message, the
      stack, and every copied preview property), all of
      them non-enumerable; a `Record` is a plain object (no type name) or an
      instance of a registry constructor named `typeName`. `HostStack` is the
      stack trace text the host engine gives every error it constructs (V8
      makes it an own `stack` property); its text depends on the call site
      and is left opaque. */
  datatype Value =
    | Undefined
    | Null
    | Bool(b: bool)
    | Num(n: Number)
    | Str(s: string)
    | Func
    | Sym(description: Option<string>)
    | Date(text: Option<string>)
    | Regex(source: string, flags: string, lastIndex: Value)
    | Err(kind: ErrorKind, own: map<string, Value>)
    | EmptyMap
    | EmptySet
    | Arr(items: seq<Value>)
    | Record(typeName: Option<string>, fields: map<string, Value>)
    | HostStack

  /** `typeof v === 'object'`: null and every object that is not callable. */
  predicate IsObject(v: Value) {
    v.Null? || v.Date? || v.Regex? || v.Err? || v.EmptyMap? || v.EmptySet? || v.Arr? || v.Record?
  }

  /** JavaScript truthiness (ToBoolean). */
  predicate Truthy(v: Value) {
    match v
    case Undefined => false
    case Null => false
    case Bool(b) => b
    case Num(n) => n.Infinity? || n.NegInfinity? || (n.Finite? && n.x != 0.0)
    case Str(s) => s != []
    case _ => true
  }

  /** A `Runtime.RemoteObject` summary: `typ` is the protocol's `type` field;
      `value` is Undefined when the summary carries none. */
  datatype RemoteObj = RemoteObj(
    typ: string,
    subtype: Option<string>,
    className: Option<string>,
    value: Value,
    description: Option<string>,
    preview: Option<Preview>)

  /** An object preview; its `properties` field may itself be missing. */
  datatype Preview = Preview(properties: PropList)

  datatype PropList = NoProperties | Properties(items: seq<Prop>)

  /** One preview entry: a name and the summary of the property's value. */
  datatype Prop = Prop(name: string, summary: RemoteObj)

  /** `(preview && preview.properties) || []`: the entries of the preview, the
      empty list when the preview or its property list is missing. Every entry
      summary is strictly smaller than the summary it came from. */
  function PropsOf(r: RemoteObj): (ps: seq<Prop>)
    ensures r.preview.None? ==> ps == []
    ensures r.preview.Some? && r.preview.value.properties.NoProperties? ==> ps == []
    ensures r.preview.Some? && r.preview.value.properties.Properties? ==> ps == r.preview.value.properties.items
    ensures forall i :: 0 <= i < |ps| ==> ps[i].summary < r
  {
    match r.preview
    case Some(Preview(Properties(ps))) => ps
    case _ => []
  }
}
