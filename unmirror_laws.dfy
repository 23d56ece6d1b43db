/** What `unmirror` promises, proved about its specification `Decode`, the
    registry it fills, and the text formats it parses. */
module UnmirrorLaws {
  import opened JsValues
  import opened JsText
  import opened Classes
  import opened Unmirror

  // ---------------------------------------------------------------------------
  // Primitive summaries

  /** A string summary gives back its `value` untouched. */
  lemma StringIdentity(r: RemoteObj, parse: Value -> Option<Value>)
    requires r.typ == "string"
    ensures Decodable(r) && Decode(r, parse) == r.value
  {
  }

  /** A boolean summary decodes to true exactly for the boolean true and the
      text "true", and to false for every other value. */
  lemma BooleanDecode(r: RemoteObj, parse: Value -> Option<Value>)
    requires r.typ == "boolean"
    ensures Decodable(r) && Decode(r, parse).Bool?
    ensures Decode(r, parse).b <==> (r.value == Bool(true) || r.value == Str("true"))
  {
  }

  /** A number summary: a number value as it is, the four special tokens as
      the special numbers, a missing value as undefined, and other text as
      `JSON.parse` reads it, or the text itself when parsing fails. */
  lemma NumberDecode(r: RemoteObj, parse: Value -> Option<Value>)
    requires r.typ == "number"
    ensures Decodable(r)
    ensures r.value.Num? ==> Decode(r, parse) == r.value
    ensures r.value == Str("NaN") ==> Decode(r, parse) == Num(NaN)
    ensures r.value == Str("-Infinity") ==> Decode(r, parse) == Num(NegInfinity)
    ensures r.value == Str("Infinity") ==> Decode(r, parse) == Num(Infinity)
    ensures r.value == Str("-0") ==> Decode(r, parse) == Num(NegZero)
    ensures r.value == Undefined ==> Decode(r, parse) == Undefined
    ensures !r.value.Num? && r.value !in {Str("NaN"), Str("-Infinity"), Str("Infinity"), Str("-0"), Undefined}
            ==> Decode(r, parse) == (if parse(r.value).Some? then parse(r.value).value else r.value)
  {
  }

  /** The type is tested before the subtype: a summary whose `type` is a
      primitive one decodes the same whatever its subtype, class name or
      preview. */
  lemma TypeBeforeSubtype(r: RemoteObj, r': RemoteObj, parse: Value -> Option<Value>)
    requires r.typ in TypeTags && r'.typ == r.typ
    requires r'.value == r.value && r'.description == r.description
    ensures Decodable(r) && Decodable(r') && Decode(r, parse) == Decode(r', parse)
  {
  }

  /** Map and set summaries always decode to empty containers; the protocol
      never sends their elements. */
  lemma MapSetEmpty(r: RemoteObj, parse: Value -> Option<Value>)
    requires r.typ !in TypeTags && r.subtype in {Some("map"), Some("set")}
    ensures Decodable(r)
    ensures Decode(r, parse) == (if r.subtype == Some("map") then EmptyMap else EmptySet)
  {
  }

  /** The other leaves: a function summary gives a function, `undefined`
      gives undefined, and the subtypes `null`, `date` and `node` give null,
      a date parsed from the description, and the class name. */
  lemma OtherLeaves(r: RemoteObj, parse: Value -> Option<Value>)
    ensures r.typ == "function" ==> Decodable(r) && Decode(r, parse) == Func
    ensures r.typ == "undefined" ==> Decodable(r) && Decode(r, parse) == Undefined
    ensures r.typ !in TypeTags && r.subtype == Some("null") ==> Decodable(r) && Decode(r, parse) == Null
    ensures r.typ !in TypeTags && r.subtype == Some("date") ==>
              Decodable(r) && Decode(r, parse) == Date(r.description)
    ensures r.typ !in TypeTags && r.subtype == Some("node") ==>
              && Decodable(r)
              && Decode(r, parse) == if r.className.Some? then Str(r.className.value) else Undefined
  {
  }

  // ---------------------------------------------------------------------------
  // Symbols

  /** A description `Symbol(s)` on one line gives a symbol described by s, or
      an anonymous one when s is empty. */
  lemma SymbolRoundTrip(s: string)
    requires forall k :: 0 <= k < |s| ==> !IsLineTerminator(s[k])
    ensures SymbolDescription(Some("Symbol(" + s + ")")) == if s == "" then None else Some(s)
  {
    var d := "Symbol(" + s + ")";
    assert d[0..7] == "Symbol(";
    forall i | 7 <= i < |d| ensures !IsLineTerminator(d[i]) {
      if i < |d| - 1 {
        assert d[i] == s[i - 7];
      }
    }
    assert LineEnd(d, 7) == |d|;
    assert d[7..|d|] == s + ")";
    LastIndexOfUnique(s + ")", ')', |s|);
  }

  /** A missing description gives an anonymous symbol. */
  lemma SymbolWithoutDescription()
    ensures SymbolDescription(None) == None
  {
  }

  // ---------------------------------------------------------------------------
  // Arrays

  /** An array summary decodes to one element per preview entry, the i-th
      being the decode of the i-th entry. */
  lemma ArrayDecode(r: RemoteObj, parse: Value -> Option<Value>)
    requires Decodable(r) && BranchOf(r) == AsArray
    ensures Decode(r, parse).Arr? && |Decode(r, parse).items| == |PropsOf(r)|
    ensures forall i :: 0 <= i < |PropsOf(r)| ==>
              Decodable(PropsOf(r)[i].summary)
              && Decode(r, parse).items[i] == Decode(PropsOf(r)[i].summary, parse)
  {
  }

  /** Without a preview, or without its property list, an array is empty. */
  lemma ArrayWithoutPreview(r: RemoteObj, parse: Value -> Option<Value>)
    requires BranchOf(r) == AsArray
    requires r.preview.None? || r.preview.value.properties.NoProperties?
    ensures Decodable(r) && Decode(r, parse) == Arr([])
  {
  }

  // ---------------------------------------------------------------------------
  // Regular expressions

  /** The pattern comes from the last `source` entry. */
  lemma {:induction false} LastSourceAt(ps: seq<Prop>, j: nat)
    requires IsLastNamed(ps, j, "source")
    ensures LastSource(ps) == ps[j].summary.value
  {
    var n := |ps| - 1;
    if j < n {
      LastSourceAt(ps[..n], j);
    }
  }

  /** With no `source` entry there is no structured pattern. */
  lemma {:induction false} LastSourceNone(ps: seq<Prop>)
    requires forall k :: 0 <= k < |ps| ==> ps[k].name != "source"
    ensures LastSource(ps) == Undefined
  {
    if ps != [] {
      LastSourceNone(ps[..|ps| - 1]);
    }
  }

  /** The flag letter a boolean regexp entry stands for. */
  predicate FlagOf(c: char, name: string) {
    || (c == 'g' && name == "global")
    || (c == 'i' && name == "ignoreCase")
    || (c == 'm' && name == "multiline")
  }

  /** The gathered flags are letters among g, i and m. */
  lemma {:induction false} FlagLettersOnly(ps: seq<Prop>, ds: seq<Value>)
    requires |ps| == |ds|
    ensures forall k :: 0 <= k < |ScanFlags(ps, ds).flags| ==> ScanFlags(ps, ds).flags[k] in "gim"
  {
    if ps != [] {
      var n := |ps| - 1;
      FlagLettersOnly(ps[..n], ds[..n]);
    }
  }

  /** The letter one entry contributes: its flag's letter when the entry
      names a flag and decodes truthy, nothing otherwise. */
  function FlagLetter(name: string, d: Value): string {
    if name == "global" && Truthy(d) then "g"
    else if name == "ignoreCase" && Truthy(d) then "i"
    else if name == "multiline" && Truthy(d) then "m"
    else ""
  }

  /** The flags are the entries' letters in preview order. */
  lemma {:induction false} FlagsInOrder(ps: seq<Prop>, ds: seq<Value>)
    requires |ps| == |ds|
    ensures ScanFlags(ps, ds).flags
            == Flatten(seq(|ps|, i requires 0 <= i < |ps| => FlagLetter(ps[i].name, ds[i])))
  {
    if ps != [] {
      var n := |ps| - 1;
      FlagsInOrder(ps[..n], ds[..n]);
      var letters := seq(|ps|, i requires 0 <= i < |ps| => FlagLetter(ps[i].name, ds[i]));
      assert letters[..n] == seq(n, i requires 0 <= i < n => FlagLetter(ps[..n][i].name, ds[..n][i]));
    }
  }

  /** A flag letter is present exactly when some entry of its name decodes
      truthy. */
  lemma {:induction false} FlagPresent(ps: seq<Prop>, ds: seq<Value>, c: char, name: string)
    requires |ps| == |ds| && FlagOf(c, name)
    ensures c in ScanFlags(ps, ds).flags <==>
              exists j :: 0 <= j < |ps| && ps[j].name == name && Truthy(ds[j])
  {
    if ps != [] {
      var n := |ps| - 1;
      var init, dinit := ps[..n], ds[..n];
      FlagPresent(init, dinit, c, name);
      var before := ScanFlags(init, dinit);
      assert ScanFlags(ps, ds) == FlagStep(before, ps[n].name, ds[n]);
      assert c in ScanFlags(ps, ds).flags <==> c in before.flags || (ps[n].name == name && Truthy(ds[n]));
      if exists j :: 0 <= j < |ps| && ps[j].name == name && Truthy(ds[j]) {
        var j :| 0 <= j < |ps| && ps[j].name == name && Truthy(ds[j]);
        if j < n {
          assert init[j] == ps[j] && dinit[j] == ds[j];
        }
      }
      if c in before.flags {
        var j :| 0 <= j < n && init[j].name == name && Truthy(dinit[j]);
        assert ps[j] == init[j] && ds[j] == dinit[j];
      }
    }
  }

  /** The cursor is the decoded value of the last `lastIndex` entry. */
  lemma {:induction false} LastIndexAt(ps: seq<Prop>, ds: seq<Value>, j: nat)
    requires |ps| == |ds| && IsLastNamed(ps, j, "lastIndex")
    ensures ScanFlags(ps, ds).lastIndex == ds[j]
  {
    var n := |ps| - 1;
    if j < n {
      LastIndexAt(ps[..n], ds[..n], j);
    }
  }

  /** With no `lastIndex` entry the cursor is undefined. */
  lemma {:induction false} LastIndexNone(ps: seq<Prop>, ds: seq<Value>)
    requires |ps| == |ds|
    requires forall k :: 0 <= k < |ps| ==> ps[k].name != "lastIndex"
    ensures ScanFlags(ps, ds).lastIndex == Undefined
  {
    if ps != [] {
      var n := |ps| - 1;
      LastIndexNone(ps[..n], ds[..n]);
    }
  }

  /** A regexp with a string-valued `source` entry: the pattern is the last
      such entry's raw text and the flags and cursor are the ones gathered
      from the entries. */
  lemma RegexpStructured(r: RemoteObj, parse: Value -> Option<Value>, j: nat)
    requires Decodable(r) && BranchOf(r) == AsRegexp
    requires IsLastNamed(PropsOf(r), j, "source") && PropsOf(r)[j].summary.value.Str?
    ensures Decode(r, parse).Regex?
    ensures Str(Decode(r, parse).source) == PropsOf(r)[j].summary.value
    ensures Decode(r, parse).flags == ScanFlags(PropsOf(r), DecodedProps(r, parse)).flags
    ensures Decode(r, parse).lastIndex == ScanFlags(PropsOf(r), DecodedProps(r, parse)).lastIndex
  {
    LastSourceAt(PropsOf(r), j);
  }

  /** The textual form `/pattern/flags`, with any delimiter: a flags part
      free of the delimiter comes back as it was, and so does the pattern,
      which may itself contain the delimiter. */
  lemma TextualRegexRoundTrip(c: char, p: string, f: string)
    requires c !in f
    ensures TextualRegex([c] + p + [c] + f) == (p, f)
  {
    var d := [c] + p + [c] + f;
    assert d[|p| + 2..] == f;
    LastIndexOfUnique(d, c, |p| + 1);
    assert d[1..|p| + 1] == p;
  }

  /** With no `source` entry, pattern and flags come from the description
      (flags gathered from the entries are dropped); the cursor still comes
      from the entries. */
  lemma RegexpTextual(r: RemoteObj, parse: Value -> Option<Value>, c: char, p: string, f: string)
    requires Decodable(r) && BranchOf(r) == AsRegexp
    requires forall k :: 0 <= k < |PropsOf(r)| ==> PropsOf(r)[k].name != "source"
    requires r.description == Some([c] + p + [c] + f) && c !in f
    ensures Decode(r, parse) == Regex(p, f, ScanFlags(PropsOf(r), DecodedProps(r, parse)).lastIndex)
  {
    LastSourceNone(PropsOf(r));
    TextualRegexRoundTrip(c, p, f);
  }

  /** A preview entry for a primitive, its value given as text. */
  function TextEntry(name: string, typ: string, text: string): Prop {
    Prop(name, RemoteObj(typ, None, None, Str(text), None, None))
  }

  /** The entries of `/ab+c/gm` as the Runtime domain previews them. */
  const StructuredEntries: seq<Prop> := [
    TextEntry("source", "string", "ab+c"), TextEntry("global", "boolean", "true"),
    TextEntry("ignoreCase", "boolean", "false"), TextEntry("multiline", "boolean", "true"),
    TextEntry("lastIndex", "number", "3")]

  /** Entries named as a regexp preview lists them, with `global` and
      `multiline` truthy and `ignoreCase` falsy, give the flags "gm" and the
      last entry's cursor. */
  lemma GlobalMultilineScan(ps: seq<Prop>, ds: seq<Value>)
    requires |ps| == |ds| == 5
    requires ps[0].name == "source" && ps[1].name == "global" && ps[2].name == "ignoreCase"
    requires ps[3].name == "multiline" && ps[4].name == "lastIndex"
    requires Truthy(ds[1]) && !Truthy(ds[2]) && Truthy(ds[3])
    ensures ScanFlags(ps, ds) == FlagScan("gm", ds[4])
  {
    ScanStep(ps, ds, 0);
    ScanStep(ps, ds, 1);
    ScanStep(ps, ds, 2);
    ScanStep(ps, ds, 3);
    ScanStep(ps, ds, 4);
    assert ps[..0] == [] && ds[..0] == [];
    assert ps[..5] == ps && ds[..5] == ds;
  }

  /** Entry i of a decodable regexp summary, one the regexp branch recurses
      into, decodes as its own summary does. */
  lemma RegexpEntryDecoded(r: RemoteObj, parse: Value -> Option<Value>, i: nat)
    requires BranchOf(r) == AsRegexp && Decodable(r) && i < |PropsOf(r)|
    requires PropsOf(r)[i].name in {"global", "ignoreCase", "multiline", "lastIndex"}
    ensures Decodable(PropsOf(r)[i].summary)
    ensures DecodedProps(r, parse)[i] == Decode(PropsOf(r)[i].summary, parse)
  {
    Entry(r, parse, i);
  }

  /** Those entries decode to true, false, true and the parsed cursor. */
  lemma StructuredEntriesDecoded(r: RemoteObj, parse: Value -> Option<Value>)
    requires BranchOf(r) == AsRegexp && PropsOf(r) == StructuredEntries && Decodable(r)
    requires parse(Str("3")) == Some(Num(Finite(3.0)))
    ensures var ds := DecodedProps(r, parse);
            ds[1] == Bool(true) && ds[2] == Bool(false) && ds[3] == Bool(true) && ds[4] == Num(Finite(3.0))
  {
    var ps := StructuredEntries;
    RegexpEntryDecoded(r, parse, 1);
    RegexpEntryDecoded(r, parse, 2);
    RegexpEntryDecoded(r, parse, 3);
    RegexpEntryDecoded(r, parse, 4);
    BooleanDecode(ps[1].summary, parse);
    BooleanDecode(ps[2].summary, parse);
    BooleanDecode(ps[3].summary, parse);
    NumberDecode(ps[4].summary, parse);
  }

  /** The structured example: a regexp summary previewing those entries
      decodes to pattern "ab+c", flags "gm" and cursor 3, the number being
      read by `JSON.parse`, whatever its description says. */
  lemma StructuredRegexpExample(r: RemoteObj, parse: Value -> Option<Value>)
    requires BranchOf(r) == AsRegexp && PropsOf(r) == StructuredEntries
    requires parse(Str("3")) == Some(Num(Finite(3.0)))
    ensures Decodable(r)
    ensures Decode(r, parse) == Regex("ab+c", "gm", Num(Finite(3.0)))
  {
    var ps := StructuredEntries;
    LastSourceAt(ps, 0);
    assert Decodable(r);
    StructuredEntriesDecoded(r, parse);
    RegexpStructured(r, parse, 0);
    GlobalMultilineScan(ps, DecodedProps(r, parse));
  }

  /** The textual example: a regexp summary described as `/ab+c/gm` with no
      preview entries decodes to pattern "ab+c", flags "gm" and no cursor. */
  lemma TextualRegexpExample(r: RemoteObj, parse: Value -> Option<Value>)
    requires BranchOf(r) == AsRegexp && PropsOf(r) == [] && r.description == Some("/ab+c/gm")
    ensures Decodable(r)
    ensures Decode(r, parse) == Regex("ab+c", "gm", Undefined)
  {
    assert "/ab+c/gm" == ['/'] + "ab+c" + ['/'] + "gm";
    assert Decodable(r);
    RegexpTextual(r, parse, '/', "ab+c", "gm");
  }

  // ---------------------------------------------------------------------------
  // Errors

  /** The table selects each listed constructor by its own name, the generic
      Error for `InternalError`, and the generic Error for a missing or
      unlisted class name. */
  lemma ErrorKindSelection(className: Option<string>)
    ensures className.None? ==> ErrorKindOf(className) == Error
    ensures className == Some("InternalError") ==> ErrorKindOf(className) == Error
    ensures className.Some? && className.value !in ErrorConstructors ==> ErrorKindOf(className) == Error
    ensures forall k: ErrorKind :: ErrorKindOf(Some(KindName(k))) == k
  {
    forall k: ErrorKind ensures ErrorKindOf(Some(KindName(k))) == k {
      assert KindName(k) in ErrorConstructors;
    }
  }

  /** The stack text is exactly what follows the first newline of the
      description, empty when there is none. */
  lemma ErrorStackText(description: string, className: Option<string>)
    ensures var i := IndexOf(description, '\n');
            ErrorText(Some(description), className).1 == (if i < 0 then [] else description[i + 1..])
  {
    RestAfterFirstLine(description, '\n');
  }

  /** A first line that does not start with the class name is the message as
      it is, untrimmed. */
  lemma ErrorMessageUnprefixed(description: string, className: Option<string>)
    requires var i := IndexOf(description, '\n');
             var first := if i < 0 then description else description[..i];
             className.None? || className.value == "" || !StartsWith(first, className.value)
    ensures var i := IndexOf(description, '\n');
            ErrorText(Some(description), className).0 == (if i < 0 then description else description[..i])
  {
    FirstLine(description, '\n');
  }

  /** `"TypeError: m\ns"` gives the message m and the stack s, for any class
      name, any m without surrounding whitespace or newline and any s. */
  lemma ErrorTextRoundTrip(className: string, m: string, s: string)
    requires className != "" && '\n' !in className && '\n' !in m
    requires m == [] || (!IsTrimmable(m[0]) && !IsTrimmable(m[|m| - 1]))
    ensures ErrorText(Some(className + ": " + m + "\n" + s), Some(className)) == (m, s)
  {
    var first := className + ": " + m;
    assert '\n' !in ": ";
    LinesAround(first, s);
    PrefixStripped(className, m);
  }

  /** A first line without newline and the text after it come back from the
      split. */
  lemma LinesAround(first: string, s: string)
    requires '\n' !in first
    ensures var lines := Split(first + "\n" + s, '\n');
            lines[0] == first && Join(lines[1..], '\n') == s
  {
    var d := first + "\n" + s;
    assert d[..|first|] == first;
    IndexOfUnique(d, '\n', |first|);
    assert d[|first| + 1..] == s;
    RestAfterFirstLine(d, '\n');
    FirstLine(d, '\n');
  }

  /** Cutting the class name and the character after it, then trimming,
      leaves the message. */
  lemma PrefixStripped(className: string, m: string)
    requires m == [] || (!IsTrimmable(m[0]) && !IsTrimmable(m[|m| - 1]))
    ensures StartsWith(className + ": " + m, className)
    ensures Trim(Drop(className + ": " + m, |className| + 1)) == m
  {
    var first := className + ": " + m;
    assert first[..|className|] == className;
    assert Drop(first, |className| + 1) == " " + m;
    TrimPadded(" ", m);
  }

  /** Writing the entries adds exactly their names, but for an assigned
      `__proto__`, which the inherited setter takes unless the object owns a
      property of that name; every other property stays as it was. */
  lemma {:induction false} AssignKeys(base: map<string, Value>, ps: seq<Prop>, ds: seq<Value>, how: Write)
    requires |ps| == |ds|
    ensures Assign(base, ps, ds, how).Keys
            == base.Keys + (if how == ByAssignment then Names(ps) - {"__proto__"} else Names(ps))
    ensures forall n :: n in base && n !in Names(ps) ==> Assign(base, ps, ds, how)[n] == base[n]
  {
    if ps != [] {
      var k := |ps| - 1;
      AssignKeys(base, ps[..k], ds[..k], how);
      assert ps == ps[..k] + [ps[k]];
      assert Names(ps) == Names(ps[..k]) + {ps[k].name};
    }
  }

  /** A property holds the value of the last entry of its name, unless that
      entry went to the inherited `__proto__` setter. */
  lemma {:induction false} AssignLastWins(base: map<string, Value>, ps: seq<Prop>, ds: seq<Value>, how: Write, j: nat)
    requires |ps| == |ds| && j < |ps| && IsLastNamed(ps, j, ps[j].name)
    requires how == ByDefine || ps[j].name != "__proto__" || "__proto__" in base
    ensures ps[j].name in Assign(base, ps, ds, how) && Assign(base, ps, ds, how)[ps[j].name] == ds[j]
  {
    var n := |ps| - 1;
    if j < n {
      AssignLastWins(base, ps[..n], ds[..n], how, j);
    } else if ps[j].name == "__proto__" {
      AssignKeys(base, ps[..n], ds[..n], how);
    }
  }

  /** An error summary: the table's kind, and own properties `message`,
      `stack` and every preview entry's name. */
  lemma ErrorShape(r: RemoteObj, parse: Value -> Option<Value>)
    requires Decodable(r) && BranchOf(r) == AsError
    ensures Decode(r, parse).Err?
    ensures Decode(r, parse).kind == ErrorKindOf(r.className)
    ensures Decode(r, parse).own.Keys == {"message", "stack"} + Names(PropsOf(r))
  {
    var (msg, stack) := ErrorText(r.description, r.className);
    AssignKeys(ErrorBase(msg, stack), PropsOf(r), DecodedProps(r, parse), ByDefine);
  }

  /** The message and the stack from the description stay unless a preview
      entry of that name replaced them; a one-line description leaves the
      stack the host recorded when it made the error. */
  lemma ErrorMessageAndStack(r: RemoteObj, parse: Value -> Option<Value>)
    requires Decodable(r) && BranchOf(r) == AsError
    ensures "message" !in Names(PropsOf(r)) ==>
              "message" in Decode(r, parse).own && Decode(r, parse).own["message"] == Str(ErrorText(r.description, r.className).0)
    ensures "stack" !in Names(PropsOf(r)) ==>
              && "stack" in Decode(r, parse).own
              && Decode(r, parse).own["stack"]
                 == if ErrorText(r.description, r.className).1 == "" then HostStack else Str(ErrorText(r.description, r.className).1)
  {
    var (msg, stack) := ErrorText(r.description, r.className);
    AssignKeys(ErrorBase(msg, stack), PropsOf(r), DecodedProps(r, parse), ByDefine);
  }

  /** An entry name the source defines once only occurs once. */
  lemma DefinedOnce(ps: seq<Prop>, j: nat)
    requires DefinableOnError(ps) && j < |ps| && ps[j].name !in {"message", "stack"}
    ensures IsLastNamed(ps, j, ps[j].name)
  {
  }

  /** Every preview entry of an error is attached under its name with its
      decoded value: the last one for `message` and `stack`, and every other
      name, which the source accepts once only, as it comes. */
  lemma ErrorEntryAttached(r: RemoteObj, parse: Value -> Option<Value>, j: nat)
    requires Decodable(r) && BranchOf(r) == AsError && j < |PropsOf(r)|
    requires PropsOf(r)[j].name !in {"message", "stack"} || IsLastNamed(PropsOf(r), j, PropsOf(r)[j].name)
    ensures Decodable(PropsOf(r)[j].summary)
    ensures PropsOf(r)[j].name in Decode(r, parse).own
    ensures Decode(r, parse).own[PropsOf(r)[j].name] == Decode(PropsOf(r)[j].summary, parse)
  {
    var ps, ds := PropsOf(r), DecodedProps(r, parse);
    var (msg, stack) := ErrorText(r.description, r.className);
    assert Decode(r, parse).own == Assign(ErrorBase(msg, stack), ps, ds, ByDefine);
    if !IsLastNamed(ps, j, ps[j].name) {
      DefinedOnce(ps, j);
    }
    AssignLastWins(ErrorBase(msg, stack), ps, ds, ByDefine, j);
    Entry(r, parse, j);
  }


  /** An error summary without preview entries, described as
      `"C: m\ns"`, decodes to an error of C's kind with message m and stack s
      (for m without surrounding whitespace or newline and a non-empty s). */
  lemma ErrorRoundTrip(r: RemoteObj, parse: Value -> Option<Value>, className: string, m: string, s: string)
    requires BranchOf(r) == AsError && PropsOf(r) == []
    requires r.className == Some(className) && r.description == Some(className + ": " + m + "\n" + s)
    requires className != "" && '\n' !in className && '\n' !in m && s != ""
    requires m == [] || (!IsTrimmable(m[0]) && !IsTrimmable(m[|m| - 1]))
    ensures Decodable(r)
    ensures Decode(r, parse) == Err(ErrorKindOf(Some(className)), map["message" := Str(m), "stack" := Str(s)])
  {
    assert Decodable(r);
    ErrorTextRoundTrip(className, m, s);
    ErrorShape(r, parse);
    ErrorMessageAndStack(r, parse);
  }

  /** The example: a TypeError summary described as
      "TypeError: bad arg\nat foo (file:1:1)" with no preview entries decodes
      to a TypeError with message "bad arg" and stack "at foo (file:1:1)". */
  lemma ErrorExample(r: RemoteObj, parse: Value -> Option<Value>)
    requires BranchOf(r) == AsError && PropsOf(r) == []
    requires r.className == Some("TypeError")
    requires r.description == Some("TypeError" + ": " + "bad arg" + "\n" + "at foo (file:1:1)")
    ensures Decodable(r)
    ensures Decode(r, parse) == Err(TypeError, map["message" := Str("bad arg"), "stack" := Str("at foo (file:1:1)")])
  {
    ErrorRoundTrip(r, parse, "TypeError", "bad arg", "at foo (file:1:1)");
    assert ErrorKindOf(Some("TypeError")) == TypeError;
  }

  // ---------------------------------------------------------------------------
  // Plain objects and the registry

  /** A plain-object summary without an object value: an empty instance of
      the class (plain for an absent, empty or `Object` class name) with one
      property per entry name, except `__proto__`, whose assignment reaches
      the inherited setter and makes no property. */
  lemma ObjectShape(r: RemoteObj, parse: Value -> Option<Value>)
    requires Decodable(r) && BranchOf(r) == AsObject && !IsObject(r.value)
    ensures Decode(r, parse).Record?
    ensures Decode(r, parse).typeName == InstanceTypeName(r.className)
    ensures Decode(r, parse).fields.Keys == Names(PropsOf(r)) - {"__proto__"}
  {
    AssignKeys(map[], PropsOf(r), DecodedProps(r, parse), ByAssignment);
  }

  /** Each property holds the decoded value of the last entry of its name. */
  lemma ObjectEntry(r: RemoteObj, parse: Value -> Option<Value>, j: nat)
    requires Decodable(r) && BranchOf(r) == AsObject && !IsObject(r.value)
    requires j < |PropsOf(r)| && IsLastNamed(PropsOf(r), j, PropsOf(r)[j].name) && PropsOf(r)[j].name != "__proto__"
    ensures Decodable(PropsOf(r)[j].summary)
    ensures PropsOf(r)[j].name in Decode(r, parse).fields
    ensures Decode(r, parse).fields[PropsOf(r)[j].name] == Decode(PropsOf(r)[j].summary, parse)
  {
    var ps, ds := PropsOf(r), DecodedProps(r, parse);
    assert Decode(r, parse).fields == Assign(map[], ps, ds, ByAssignment);
    AssignLastWins(map[], ps, ds, ByAssignment, j);
    Entry(r, parse, j);
  }

  /** A summary whose value is an object: the entries are assigned onto that
      object, which keeps its other properties; an own `__proto__` property
      of the value is assigned like any other. */
  lemma ObjectValueAssigned(r: RemoteObj, parse: Value -> Option<Value>)
    requires Decodable(r) && BranchOf(r) == AsObject && r.value.Record?
    ensures Decode(r, parse).Record? && Decode(r, parse).typeName == r.value.typeName
    ensures Decode(r, parse).fields.Keys == r.value.fields.Keys + (Names(PropsOf(r)) - {"__proto__"})
    ensures forall n :: n in r.value.fields && n !in Names(PropsOf(r)) ==>
              Decode(r, parse).fields[n] == r.value.fields[n]
  {
    AssignKeys(r.value.fields, PropsOf(r), DecodedProps(r, parse), ByAssignment);
  }

  /** An entry named `__proto__` on a plain object: decoded (its classes are
      registered) but left off the object's own properties. */
  lemma ProtoEntryIgnored(r: RemoteObj, parse: Value -> Option<Value>)
    requires Decodable(r) && BranchOf(r) == AsObject && r.className.None? && r.value.Undefined?
    requires |PropsOf(r)| == 1 && PropsOf(r)[0].name == "__proto__"
    ensures Decode(r, parse) == Record(None, map[])
    ensures ClassVisits(r) == ClassVisits(PropsOf(r)[0].summary)
  {
    assert Decode(r, parse).fields == map[] by {
      assert Names(PropsOf(r)) == {"__proto__"};
      ObjectShape(r, parse);
    }
    assert ClassVisits(r) == ClassVisits(PropsOf(r)[0].summary) by {
      var vs := PropVisits(r);
      assert ClassVisits(r) == Flatten(vs);
      assert vs[..0] == [];
      Entry(r, parse, 0);
    }
  }

  /** An entry after an assigned `__proto__` the object does not own is
      outside the model: such a plain object is not decodable. */
  lemma EntryAfterProtoExcluded(r: RemoteObj)
    requires BranchOf(r) == AsObject && !r.value.Record?
    requires |PropsOf(r)| >= 2 && PropsOf(r)[0].name == "__proto__"
    ensures !Decodable(r)
  {
    assert PropsOf(r)[0] in PropsOf(r)[..|PropsOf(r)| - 1];
    assert !ProtoAssignedLast(r);
  }

  /** The registry a decode leaves: exactly the visited class names are
      added, every entry cached before keeps its constructor, a named
      instance's class is cached afterwards, and decoding the same summary
      again registers nothing. */
  lemma DecodeRegistry(s: RegistryState, r: RemoteObj)
    ensures RegisterAll(s, ClassVisits(r)).classes.Keys == s.classes.Keys + (set n | n in ClassVisits(r))
    ensures forall n :: n in s.classes ==> RegisterAll(s, ClassVisits(r)).classes[n] == s.classes[n]
    ensures WellFormed(s) ==> WellFormed(RegisterAll(s, ClassVisits(r)))
    ensures RegisterAll(RegisterAll(s, ClassVisits(r)), ClassVisits(r)) == RegisterAll(s, ClassVisits(r))
    ensures BranchOf(r) == AsObject && !IsObject(r.value) && InstanceTypeName(r.className).Some? ==>
              r.className.value in RegisterAll(s, ClassVisits(r)).classes
  {
    RegisterAllGrows(s, ClassVisits(r));
    RegisterAllIdempotent(s, ClassVisits(r));
    if BranchOf(r) == AsObject && !IsObject(r.value) && InstanceTypeName(r.className).Some? {
      assert ClassVisits(r)[0] == r.className.value;
    }
  }

  /** A plain object with no class name, or `Object`, registers nothing of its
      own: only the entries' classes are registered. */
  lemma PlainObjectRegistersNothing(r: RemoteObj)
    requires BranchOf(r) == AsObject && r.className in {None, Some(""), Some("Object")}
    ensures ClassVisits(r) == Flatten(PropVisits(r))
  {
  }

  /** Decoding the same summary twice gives equal values, the second time
      without touching the registry. */
  method UnmirrorTwice(reg: ClassRegistry, r: RemoteObj, parse: Value -> Option<Value>)
    returns (first: Value, second: Value)
    requires reg.Valid() && Decodable(r)
    modifies reg
    ensures reg.Valid() && first == second == Decode(r, parse)
    ensures reg.State() == RegisterAll(old(reg.State()), ClassVisits(r))
  {
    first := Unmirror.Unmirror(reg, r, parse);
    second := Unmirror.Unmirror(reg, r, parse);
    DecodeRegistry(old(reg.State()), r);
  }
}
