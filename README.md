# unmirror, modelled in Dafny

`unmirror` turns a Chrome DevTools Protocol `Runtime.RemoteObject` summary
(its `type`, `subtype`, `className`, `value`, `description` and the shallow
`preview.properties` list) back into a local JavaScript value. It dispatches
on `type` first and `subtype` second, and parses text along the way:
- boolean and number tokens;
- a regexp's pattern and flags from `/pattern/flags`;
- an error's message and stack from its description, with the
  `ClassName:` prefix cut off.

It recurses into the preview entries of arrays, errors and plain objects,
and into a regexp's flag entries and its `lastIndex` entry. Plain objects are rebuilt as instances of empty
constructors named after the remote class. Those constructors live in a
process-wide cache that is filled lazily and never pruned.

The model has five modules:

- `JsValues` (values.dfy): the summaries (`RemoteObj`, `Preview`, `Prop`)
  and the values rebuilt from them (`Value`). The special numbers NaN,
  ±Infinity and -0 are tags of their own. `HostStack` is the stack trace
  the host gives every error it constructs.
- `JsText` (js_text.dfy): the string built-ins the decoder uses:
  `lastIndexOf`, `slice`, `split`, `join`, `startsWith`-style prefix
  comparison and `trim`, with `indexOf` as the helper `split` is defined
  by. It also proves their split/join and trim laws. The regular-expression
  `match` of the symbol branch is `Unmirror.SymbolMatch`.
- `Classes` (registry.dfy): the class cache. `RegistryState` is a map from
  class name to constructor id, plus the next id. `Register`/`RegisterAll`
  specify it, and the class `ClassRegistry` holds it in place.
  `ClassRegistry.MakeInstance` is `makeInstance`.
- `Unmirror` (unmirror.dfy):
  - `Decode(r, parse)` is the value `unmirror(r)` returns, as a function.
  - `ClassVisits(r)` lists the class names it registers, in call order.
  - `Decodable(r)` excludes the summaries on which one of the throw sites
    the model covers fires. Throws inside host constructors (`new RegExp`,
    `new Function`) and the inherited-key lookups of the Findings below are
    not among them.
  - The methods `Unmirror`, `UnmirrorRegexp`, `UnmirrorError`,
    `UnmirrorArray` and `UnmirrorObject` follow the source's branches and
    loops step by step. Each is proved to return `Decode(r, parse)` and to
    leave the registry at `RegisterAll(old, ClassVisits(r))`.
- `UnmirrorLaws` (unmirror_laws.dfy): what the decoder promises, proved
  about `Decode`. This covers every branch, the text round trips and the
  registry laws.
- `Findings` (findings.dfy): the two table lookups as the source writes
  them, against the own-key lookups the model uses (see Findings below).

The host's `JSON.parse` is a parameter `parse: Value -> Option<Value>`,
where `None` stands for a parse that throws (the `catch` branch of
`maybeJSON`).

## Model

| member | source | states |
|---|---|---|
| JsValues.PropsOf | src/index.js:17 | the preview's property list when both are present; empty when the preview or its property list is missing; each entry is smaller than its summary |
| JsText.LastIndexOf | src/index.js:61 | the last position holding the character with none after it, or -1 exactly when it is absent |
| JsText.LastIndexOfUnique | src/index.js:61 | a position holding the character with none after it is the one `lastIndexOf` finds |
| JsText.IndexOfUnique | src/index.js:75 | a position holding the separator with none before it is the one the split cuts at |
| JsText.Drop | src/index.js:79 | `slice(n)` is the rest after the first n characters, and empty past the end |
| JsText.Split | src/index.js:75 | a split gives at least one piece and no piece contains the separator |
| JsText.JoinSplit | src/index.js:75-82 | joining the pieces of a split gives the text back |
| JsText.SplitJoin | src/index.js:75-82 | pieces free of the separator come back from splitting their join |
| JsText.RestAfterFirstLine | src/index.js:82 | the lines after the first, joined again, are the text after the first newline |
| JsText.FirstLine | src/index.js:76 | the first line is the text before the first newline, or all of it |
| JsText.TrimStart | src/index.js:79 | drops exactly the leading whitespace and line terminators |
| JsText.TrimEnd | src/index.js:79 | drops exactly the trailing whitespace and line terminators |
| JsText.TrimPadded | src/index.js:79 | trimming leading whitespace off a message without surrounding whitespace gives the message |
| Classes.InstanceTypeName | src/index.js:121 | no class for an absent, empty or `Object` class name, the class name itself otherwise |
| Classes.Register | src/index.js:123-126 | the cache gains exactly the name; cached names keep their constructor; a cached name changes nothing; constructors stay distinct |
| Classes.RegisterAll | src/index.js:123-126 | no contract of its own: the cache after registering names in order; characterised by `RegisterAllGrows`, `RegisterAllAppend`, `RegisterAllKnown` and `RegisterAllIdempotent` |
| Classes.RegisterAllGrows | src/index.js:123-126 | registering names adds exactly those names, keeps every cached constructor and keeps them distinct |
| Classes.RegisterAllAppend | src/index.js:123-126 | registering a then b is registering a + b |
| Classes.RegisterAllKnown | src/index.js:123 | names cached already change nothing |
| Classes.RegisterAllIdempotent | src/index.js:123-126 | repeating the same registrations leaves the cache as it was |
| Classes.ClassRegistry.constructor | src/index.js:13 | the cache starts empty |
| Classes.ClassRegistry.MakeInstance | src/index.js:120-129 | a fresh empty instance of the named class, or a plain object with the cache unchanged; afterwards the name is cached, cached constructors are kept and a repeat call changes nothing |
| Unmirror.BranchOf | src/index.js:19-106 | a `type` tag is tested before any subtype; a plain object exactly when neither `type` nor `subtype` matched |
| Unmirror.Decodable | src/index.js:15-108 | no contract of its own: excludes the throw sites the model covers (entries recursed into, a regexp with neither `source` nor description, a twice-defined error property, entries on a non-record object value, entries after an assigned inherited `__proto__`); `EntryAfterProtoExcluded` exhibits the last |
| Unmirror.BranchSound | src/index.js:47-107 | no contract of its own: the branch-specific part of `Decodable` |
| Unmirror.RegexpSourceReadable | src/index.js:52-62 | no contract of its own: the last `source` entry is a string, or absent with a description to parse |
| Unmirror.DefinableOnError | src/index.js:89-94 | no contract of its own: no error property other than `message`/`stack` is defined twice |
| Unmirror.ProtoAssignedLast | src/index.js:106 | no contract of its own: no plain-object entry follows an assignment to an inherited `__proto__` |
| Unmirror.Decode | src/index.js:15-108 | no contract of its own: the value `unmirror` returns; the methods are proved equal to it and `UnmirrorLaws` characterises it branch by branch |
| Unmirror.DecodedProps | src/index.js:92-106 | the decoded entries, one per preview entry |
| Unmirror.DecodeLeaf | src/index.js:19-102 | no contract of its own: the branches that ignore the preview; characterised by `StringIdentity`, `BooleanDecode`, `NumberDecode`, `OtherLeaves`, `MapSetEmpty` and the symbol lemmas |
| Unmirror.DecodeBoolean | src/index.js:22 | no contract of its own; characterised by `BooleanDecode` |
| Unmirror.DecodeNumber | src/index.js:30-41 | no contract of its own; characterised by `NumberDecode` |
| Unmirror.MaybeJson | src/index.js:110-118 | the unset default for a missing value, the parse result when parsing succeeds, the value itself when it throws |
| Unmirror.SymbolDescription | src/index.js:26-27 | no contract of its own; characterised by `SymbolRoundTrip` and `SymbolWithoutDescription` |
| Unmirror.SymbolMatch | src/index.js:26 | no contract of its own: the capture of the leftmost match; characterised by `SymbolRoundTrip` with `LineEnd` |
| Unmirror.LineEnd | src/index.js:26 | the first line terminator from a position on, or the end; none before it |
| Unmirror.LastSource | src/index.js:52 | no contract of its own; characterised by `LastSourceAt` and `LastSourceNone` |
| Unmirror.FlagStep | src/index.js:53-56 | no contract of its own: one entry's effect on flags and cursor; `RegexpEntry` is proved against it |
| Unmirror.ScanFlags | src/index.js:51-57 | no contract of its own; characterised by `FlagLettersOnly`, `FlagsInOrder`, `FlagPresent`, `LastIndexAt` and `LastIndexNone` |
| Unmirror.TextualRegex | src/index.js:60-64 | no contract of its own; characterised by `TextualRegexRoundTrip` |
| Unmirror.RegexpOf | src/index.js:47-70 | no contract of its own; characterised by `RegexpStructured` and `RegexpTextual` |
| Unmirror.ErrorKindOf | src/index.js:73 | no contract of its own: the own-key constructor choice; characterised by `ErrorKindSelection` and `Findings.ErrorConstructionAgrees` |
| Unmirror.ErrorText | src/index.js:75-82 | no contract of its own; characterised by `ErrorStackText`, `ErrorMessageUnprefixed` and `ErrorTextRoundTrip` |
| Unmirror.ErrorBase | src/index.js:83-87 | no contract of its own: `message`, and the host stack unless the description's replaces it; characterised by `ErrorMessageAndStack` |
| Unmirror.ErrorOf | src/index.js:72-97 | no contract of its own; characterised by `ErrorShape`, `ErrorMessageAndStack`, `ErrorEntryAttached` and `ErrorRoundTrip` |
| Unmirror.Written | src/index.js:90-106 | no contract of its own: one entry defined, or assigned with an inherited `__proto__` left to its setter |
| Unmirror.Assign | src/index.js:89-106 | no contract of its own: the entries written in order; characterised by `AssignKeys` and `AssignLastWins` |
| Unmirror.ObjectOf | src/index.js:105-107 | no contract of its own; characterised by `ObjectShape`, `ObjectEntry`, `ObjectValueAssigned` and `ProtoEntryIgnored` |
| Unmirror.ClassVisits | src/index.js:105-128 | no contract of its own: the class names registered, in call order; the methods are proved to register exactly these, and `DecodeRegistry` characterises the result |
| Unmirror.PropVisits | src/index.js:92-106 | the names registered per preview entry, one list per entry |
| Unmirror.Unmirror | src/index.js:15-108 | returns `Decode(r)` and leaves the cache as registering `ClassVisits(r)` in order would |
| Unmirror.UnmirrorRegexp | src/index.js:47-70 | returns `Decode(r)` for a regexp, with the structured entries or the textual fallback, and registers `ClassVisits(r)` |
| Unmirror.ScanRegexpEntries | src/index.js:48-57 | the loop ends with the last raw `source`, the flags and cursor of `ScanFlags`, and the entries' classes registered |
| Unmirror.RegexpEntry | src/index.js:52-56 | one loop step: `source` replaced, a flag letter appended or the cursor replaced, as `FlagStep` says |
| Unmirror.FlagEntry | src/index.js:53-55 | the flag letter is appended exactly when the entry decodes truthy, and the entry's classes are registered |
| Unmirror.UnmirrorError | src/index.js:72-97 | returns `Decode(r)` for an error: kind from the table, the message, the host's own stack replaced by the description's when that is non-empty, then the entries defined |
| Unmirror.DefineEntries | src/index.js:89-94 | the `defineProperty` loop (and the assignment loop of line 106) writes every decoded entry on the target in order, as `Assign` says, registering the entries' classes in order |
| Unmirror.DefineEntry | src/index.js:90-93 | one entry decoded and written: an own property of its name, except an assigned `__proto__` the object does not own, which leaves the properties as they were |
| Unmirror.EntriesDecoded | src/index.js:92-106 | every entry of an error or plain object is decodable, smaller than its summary, and decodes and registers as its own summary does |
| Unmirror.UnmirrorArray | src/index.js:103 | returns `Decode(r)` for an array, decoding the entries in order |
| Unmirror.UnmirrorObject | src/index.js:105-107 | the object value or `makeInstance(className)`, then the entries assigned in order, `__proto__` through the inherited setter; registers the class first |
| UnmirrorLaws.StringIdentity | src/index.js:19 | a string summary decodes to its value untouched |
| UnmirrorLaws.BooleanDecode | src/index.js:22 | a boolean decodes to true exactly for the boolean true and the text "true" |
| UnmirrorLaws.NumberDecode | src/index.js:30-41 | a number value is kept; the four tokens give the special numbers; a missing value gives undefined; other text goes through `JSON.parse` or stays as it is |
| UnmirrorLaws.TypeBeforeSubtype | src/index.js:19-41 | a primitive `type` decides the result whatever the subtype, class name or preview |
| UnmirrorLaws.MapSetEmpty | src/index.js:101-102 | map and set summaries decode to empty containers |
| UnmirrorLaws.OtherLeaves | src/index.js:20-45 | a function summary gives a function, `undefined` gives undefined, and `null`, `date` and `node` give null, a date of the description and the class name (undefined when absent) |
| UnmirrorLaws.SymbolRoundTrip | src/index.js:26-27 | `Symbol(s)` on one line gives a symbol described by s, anonymous for an empty s |
| UnmirrorLaws.SymbolWithoutDescription | src/index.js:26-27 | no description gives an anonymous symbol |
| UnmirrorLaws.ArrayDecode | src/index.js:103 | one element per preview entry, the i-th the decode of the i-th entry |
| UnmirrorLaws.ArrayWithoutPreview | src/index.js:17 | a missing preview or property list gives the empty array |
| UnmirrorLaws.LastSourceAt | src/index.js:52 | the pattern is the raw value of the last `source` entry |
| UnmirrorLaws.LastSourceNone | src/index.js:48-52 | with no `source` entry the pattern stays unset |
| UnmirrorLaws.FlagLettersOnly | src/index.js:48-55 | the flags hold only g, i and m |
| UnmirrorLaws.FlagsInOrder | src/index.js:51-55 | the flags are one letter per truthy flag entry, in preview order |
| UnmirrorLaws.FlagPresent | src/index.js:53-55 | a flag letter is present exactly when some entry of its name decodes truthy |
| UnmirrorLaws.LastIndexAt | src/index.js:56 | the cursor is the decoded last `lastIndex` entry |
| UnmirrorLaws.LastIndexNone | src/index.js:48 | with no `lastIndex` entry the cursor is unset |
| UnmirrorLaws.RegexpStructured | src/index.js:47-70 | with a string `source` entry: that raw text as pattern, the gathered flags and cursor |
| UnmirrorLaws.TextualRegexRoundTrip | src/index.js:60-64 | `d + p + d + f`, with f free of d, gives pattern p and flags f |
| UnmirrorLaws.RegexpTextual | src/index.js:60-67 | with no `source` entry, pattern and flags come from the description and the cursor from the entries |
| UnmirrorLaws.GlobalMultilineScan | src/index.js:51-57 | `global` and `multiline` truthy and `ignoreCase` falsy give the flags "gm" and the last cursor |
| UnmirrorLaws.RegexpEntryDecoded | src/index.js:53-56 | a flag or cursor entry decodes as its own summary does |
| UnmirrorLaws.StructuredEntriesDecoded | src/index.js:53-56 | the previewed entries "true", "false", "true" and "3" decode to true, false, true and 3 |
| UnmirrorLaws.StructuredRegexpExample | src/index.js:47-70 | the entries source "ab+c", global true, ignoreCase false, multiline true, lastIndex 3 give /ab+c/gm with cursor 3 |
| UnmirrorLaws.TextualRegexpExample | src/index.js:60-67 | the description `/ab+c/gm` gives pattern "ab+c" and flags "gm" |
| UnmirrorLaws.ErrorKindSelection | src/index.js:3-11 | every listed name selects its own constructor; `InternalError`, no class name and unlisted names select Error |
| UnmirrorLaws.ErrorStackText | src/index.js:75-82 | the stack is the text after the first newline, empty with none |
| UnmirrorLaws.ErrorMessageUnprefixed | src/index.js:75-80 | a first line not starting with the class name is the message, untrimmed |
| UnmirrorLaws.ErrorTextRoundTrip | src/index.js:75-82 | `"C: m\ns"` gives message m and stack s, for m without surrounding whitespace or newline |
| UnmirrorLaws.LinesAround | src/index.js:75-82 | a first line and the rest come back from the split |
| UnmirrorLaws.PrefixStripped | src/index.js:78-79 | the class name prefix and the character after it are cut, the rest trimmed |
| UnmirrorLaws.AssignKeys | src/index.js:89-94 | defining the entries adds exactly their names; assigning them adds their names but `__proto__`, unless the object owns one; every other property is kept |
| UnmirrorLaws.AssignLastWins | src/index.js:106 | a property holds the value of the last entry of its name, unless that entry was an assigned `__proto__` the object does not own |
| UnmirrorLaws.ErrorShape | src/index.js:72-97 | an error of the table's kind owning `message`, `stack` and every entry name |
| UnmirrorLaws.ErrorMessageAndStack | src/index.js:83-87 | message and stack from the description unless an entry replaced them; a one-line description keeps the stack the host recorded |
| UnmirrorLaws.DefinedOnce | src/index.js:89-94 | a name other than `message` and `stack` occurs once among a decodable error's entries |
| UnmirrorLaws.ErrorEntryAttached | src/index.js:89-94 | each entry is attached under its name with its decoded value |
| UnmirrorLaws.ErrorRoundTrip | src/index.js:72-97 | an entry-less error described as `"C: m\ns"`, with m on one line and free of surrounding whitespace and s non-empty, decodes to an error of C's kind owning exactly `message` m and `stack` s |
| UnmirrorLaws.ErrorExample | src/index.js:72-97 | the description "TypeError: bad arg\nat foo (file:1:1)" decodes to a TypeError with message "bad arg" and stack "at foo (file:1:1)" |
| UnmirrorLaws.ObjectShape | src/index.js:105-106 | an empty instance of the class, plain for no class or `Object`, with one property per entry name other than `__proto__` |
| UnmirrorLaws.ObjectEntry | src/index.js:106 | each property other than `__proto__` holds the decoded last entry of its name |
| UnmirrorLaws.ObjectValueAssigned | src/index.js:105-106 | with an object value, the result is that object with the entry names but `__proto__` added and its other properties kept |
| UnmirrorLaws.ProtoEntryIgnored | src/index.js:106 | a lone `__proto__` entry on a plain object is decoded, registering its classes, and leaves the object with no property |
| UnmirrorLaws.EntryAfterProtoExcluded | src/index.js:106 | a plain object with an entry after an assigned inherited `__proto__` is outside the decodable summaries |
| UnmirrorLaws.DecodeRegistry | src/index.js:120-128 | a decode adds exactly the visited class names, keeps cached constructors, caches a named instance's class, and a repeat decode registers nothing |
| UnmirrorLaws.PlainObjectRegistersNothing | src/index.js:121 | a plain object registers only its entries' classes |
| UnmirrorLaws.UnmirrorTwice | src/index.js:15-108 | decoding a summary twice gives equal values, the second time with the cache unchanged |
| Findings.LiteralLookup | src/index.js:3-13 | an object-literal lookup finds an own entry exactly when the key is one; outside Object.prototype's keys, nothing else |
| Findings.ErrorConstructionAsWritten | src/index.js:73 | no contract of its own: the constructor choice as written, including inherited keys; characterised by `ErrorConstructionCounterexample` and `ErrorConstructionAgrees` |
| Findings.ErrorConstructionCounterexample | src/index.js:73 | as written, `constructor` yields a String object and `toString` throws, where the own-key table gives Error |
| Findings.ErrorConstructionAgrees | src/index.js:73 | the as-written and own-key choices agree exactly off Object.prototype's keys |
| Findings.MakeInstanceAsWritten | src/index.js:120-128 | no contract of its own: `makeInstance` as written, including inherited keys; characterised by `MakeInstanceCounterexample` and `MakeInstanceAgrees` |
| Findings.MakeInstanceCounterexample | src/index.js:123-128 | as written, `constructor` is never cached and gives plain objects, and `toString` throws |
| Findings.MakeInstanceAgrees | src/index.js:120-129 | off Object.prototype's keys, `makeInstance` as written does what `ClassRegistry.MakeInstance` does |

## Left out

- `JSON.parse` (src/index.js:114) is host parsing. It is the parameter `parse`; `None` stands for the throw.
- `new Date(description)` (src/index.js:44) keeps the description text as an opaque payload. Date parsing is not modelled.
- `new RegExp(source, flags)` (src/index.js:66) is the host regex engine. A regexp is the triple (pattern, flags, cursor). Invalid patterns, repeated flag letters, and flag letters other than those the engine knows in a textual description (such as `/a/x`) are not rejected, although the constructor throws on each.
- `new Function(...)` (src/index.js:124) is code generation. A constructor is the id the cache gave it, and the instance is named after `className` whatever the generated code does. A class name that is not an identifier may make that code throw, may give the function another name (`a(){}; function b` yields a function named `a`), or may run statements the name carries. None of this is modelled.
- The `typeof Symbol`, `typeof Map` and `typeof Set` checks (src/index.js:25, 101-102): the features are taken to exist.
- Symbol identity: a symbol is its description only.
- Numbers are exact reals plus the four special tags; IEEE-754 rounding is not modelled.
- Strings are sequences of characters. UTF-16 code units and surrogate pairs are not distinguished.
- The text of the host's own error `stack` (src/index.js:83): V8 gives every error it constructs an own `stack`. The model keeps it as the opaque `HostStack` and does not model its text.
- Unmirror.UnmirrorObject: an entry named `__proto__` whose decoded value is an object or null replaces the prototype of the target (src/index.js:106). The model records only that such an assignment makes no own property; the prototype change is not modelled.
- Unmirror.UnmirrorObject: when the summary's `value` is an object, the source assigns the entries onto that very object and returns it (src/index.js:105-107). The caller's summary is therefore changed in place, and two decodes of it return the same object. The model returns a new value equal to the updated object; this aliasing and in-place update are not captured.
- Property attributes: an error's own properties are recorded as a map. Non-enumerability, `writable`/`configurable` and the prototype chain of instances are not modelled.
- Unmirror.Decodable: over-requires in two places. A repeated error entry name other than `message`/`stack` is excluded even when both entries carry the same value, which `defineProperty` would accept. A summary whose `value` is a JSON array and which has preview entries is excluded, though the source would assign the entries onto the array.
- Unmirror.Decodable: excludes a plain object with any entry after an entry named `__proto__` when the object does not own that property (src/index.js:106). The assignment may replace the prototype, and later assignments then go through what the new prototype defines: under a null prototype a later `__proto__` becomes an own property, and a getter-only accessor such as `Map.prototype.size` throws in strict code. This over-requires where the assigned value is not an object or null, since the setter then does nothing.
- AssignKeys: for the assignment mode it states the keys of the fold, which match the source only while the prototype is the one the object was made with; `Decodable` keeps the plain-object branch to that case, and the lemma says nothing about the source beyond it.
- AssignLastWins: likewise, for the assignment mode it holds of the source only while the prototype has not been replaced by an earlier `__proto__` entry.
- Unmirror.DefineEntry: an assigned inherited `__proto__` is left to Object.prototype's setter; a setter or getter of a replaced prototype is not modelled (excluded by `Decodable`).
- ObjectShape: says nothing about plain objects with an entry after an assigned inherited `__proto__`, which `Decodable` excludes.
- ObjectEntry: says nothing about plain objects with an entry after an assigned inherited `__proto__`, which `Decodable` excludes.
- ObjectValueAssigned: says nothing about object values with an entry after an assigned inherited `__proto__`, which `Decodable` excludes.
- Unmirror.Decodable: a regexp `source` entry must carry a string, as the protocol's property preview does. The source would convert any other value to text.
- The text after a `ClassName` prefix is cut at `className.length + 1` characters counted as characters, not UTF-16 code units.

## Findings

| source | as written | input that shows it | evidently intended | confidence | as-written member | corrected member |
|---|---|---|---|---|---|---|
| src/index.js:73 | `ERROR_CONSTRUCTORS[className]` on an object literal also finds Object.prototype members | an error summary with className `constructor` (rebuilt with `new Object(msg)`, a String object) or `toString` (`new` on a non-constructor throws) | only the table's own entries select a constructor; any other name gives Error | medium, not executed | Findings.ErrorConstructionCounterexample | Unmirror.ErrorKindOf |
| src/index.js:123-128 | `classes[className]` on an object literal treats Object.prototype members as cached constructors | a plain-object summary with className `constructor` (never cached, a plain object comes back) or `toString` (`new` on a non-constructor throws) | every class name gets its own fabricated constructor | medium, not executed | Findings.MakeInstanceCounterexample | Classes.ClassRegistry.MakeInstance |
