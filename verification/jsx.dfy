/** src/jsx-runtime.tsx: the element factory the TSX compiler calls, the
    renderer that turns an element tree into HTML text, and the CSS id
    selector helper. JavaScript values are modelled by `Value`; numbers
    are integers. */
module Jsx {

  import opened Wrappers
  import opened Text

  // ---------------------------------------------------------------------
  // Escaping
  // ---------------------------------------------------------------------

  /** The `escaped` table: what each special character becomes. */
  function EscapeChar(c: char): string {
    if c == '\\' then "\\\\"
    else if c == '&' then "&amp;"
    else if c == '<' then "&lt;"
    else if c == '>' then "&gt;"
    else if c == '"' then "&quot;"
    else [c]
  }

  /** `escape(v)`: every `\ & < > "` replaced in one pass. */
  function Escape(s: string): (e: string)
    ensures '<' !in e && '>' !in e && '"' !in e
  {
    if |s| == 0 then "" else EscapeChar(s[0]) + Escape(s[1..])
  }

  /** The replacement `render` applies to a string child: the same table,
      but `"` is left alone. */
  function EscapeText(s: string): (e: string)
    ensures '<' !in e && '>' !in e
  {
    if |s| == 0 then "" else (if s[0] == '"' then "\"" else EscapeChar(s[0])) + EscapeText(s[1..])
  }

  /** Reads escaped text back: the inverse of both escapes. */
  function Unescape(s: string): string
    decreases |s|
  {
    if |s| == 0 then ""
    else if s[0] == '\\' && |s| >= 2 && s[1] == '\\' then "\\" + Unescape(s[2..])
    else if s[0] == '&' && |s| >= 4 && (s[1] == 'l' || s[1] == 'g') && s[2] == 't' && s[3] == ';' then
      (if s[1] == 'l' then "<" else ">") + Unescape(s[4..])
    else if s[0] == '&' && |s| >= 5 && s[1] == 'a' && s[2] == 'm' && s[3] == 'p' && s[4] == ';' then
      "&" + Unescape(s[5..])
    else if s[0] == '&' && |s| >= 6 && s[1] == 'q' && s[2] == 'u' && s[3] == 'o' && s[4] == 't' && s[5] == ';' then
      "\"" + Unescape(s[6..])
    else [s[0]] + Unescape(s[1..])
  }

  /** A character that starts no escape reads back as itself. */
  lemma UnescapePlain(c: char, rest: string)
    requires c != '\\' && c != '&'
    ensures Unescape([c] + rest) == [c] + Unescape(rest)
  {
    assert ([c] + rest)[1..] == rest;
  }

  lemma UnescapeChar(c: char, rest: string)
    ensures Unescape(EscapeChar(c) + rest) == [c] + Unescape(rest)
  {
    var e := EscapeChar(c);
    var s := e + rest;
    if c == '\\' || c == '&' || c == '<' || c == '>' || c == '"' {
      assert forall k :: 0 <= k < |e| ==> s[k] == e[k];
      assert s[|e|..] == rest;
    } else {
      UnescapePlain(c, rest);
    }
  }

  /** Escaping loses nothing: unescaping gives back the string. */
  lemma {:induction false} UnescapeEscape(s: string)
    ensures Unescape(Escape(s)) == s
  {
    if |s| > 0 {
      UnescapeChar(s[0], Escape(s[1..]));
      UnescapeEscape(s[1..]);
      assert s == [s[0]] + s[1..];
    }
  }

  /** The text escape loses nothing either. */
  lemma {:induction false} UnescapeEscapeText(s: string)
    ensures Unescape(EscapeText(s)) == s
  {
    if |s| > 0 {
      if s[0] == '"' {
        UnescapePlain('"', EscapeText(s[1..]));
      } else {
        UnescapeChar(s[0], EscapeText(s[1..]));
      }
      UnescapeEscapeText(s[1..]);
      assert s == [s[0]] + s[1..];
    }
  }

  /** The two escapes agree exactly on text without a `"`. */
  lemma {:induction false} EscapeTextWithoutQuote(s: string)
    ensures '"' !in s ==> EscapeText(s) == Escape(s)
    ensures '"' in s ==> EscapeText(s) != Escape(s)
  {
    if |s| > 0 {
      EscapeTextWithoutQuote(s[1..]);
      if '"' in s {
        if s[0] == '"' {
          assert '"' in EscapeText(s);
        } else {
          assert '"' in s[1..];
          if EscapeText(s) == Escape(s) {
            assert EscapeChar(s[0]) + EscapeText(s[1..]) == EscapeChar(s[0]) + Escape(s[1..]);
            assert EscapeText(s[1..]) == (EscapeChar(s[0]) + EscapeText(s[1..]))[|EscapeChar(s[0])|..];
          }
        }
      }
    }
  }

  // ---------------------------------------------------------------------
  // Values and elements
  // ---------------------------------------------------------------------

  /** A JavaScript value as the renderer sees it. An object is its own
      enumerable properties, in order. */
  datatype Value =
    | Undefined
    | Null
    | Bool(b: bool)
    | Num(n: int)
    | Str(s: string)
    | Arr(items: seq<Value>)
    | Obj(entries: seq<(string, Value)>)

  predicate Truthy(v: Value) {
    match v
    case Undefined => false
    case Null => false
    case Bool(b) => b
    case Num(n) => n != 0
    case Str(s) => s != ""
    case _ => true
  }

  /** `String(v)`; an array joins its items with `,`, with an undefined or
      null item as the empty string. */
  function ToJsString(v: Value): string
    decreases v
  {
    match v
    case Undefined => "undefined"
    case Null => "null"
    case Bool(b) => if b then "true" else "false"
    case Num(n) => IntToStr(n)
    case Str(s) => s
    case Arr(items) => JoinItems(items)
    case Obj(_) => "[object Object]"
  }

  function JoinItems(items: seq<Value>): string
    decreases items
  {
    if |items| == 0 then ""
    else
      var head := if items[0].Undefined? || items[0].Null? then "" else ToJsString(items[0]);
      if |items| == 1 then head else head + "," + JoinItems(items[1..])
  }

  /** The first position of `key` among the entries, or -1. */
  function FindKey(entries: seq<(string, Value)>, key: string): (i: int)
    ensures -1 <= i < |entries|
    ensures i >= 0 ==> entries[i].0 == key && forall j :: 0 <= j < i ==> entries[j].0 != key
    ensures i == -1 ==> forall j :: 0 <= j < |entries| ==> entries[j].0 != key
  {
    if |entries| == 0 then -1
    else if entries[0].0 == key then 0
    else var k := FindKey(entries[1..], key); if k == -1 then -1 else k + 1
  }

  /** `Object.entries(v)`: an object's properties, an array's or a
      string's positions, nothing for other values. */
  function Entries(v: Value): seq<(string, Value)> {
    match v
    case Obj(entries) => entries
    case Arr(items) => seq(|items|, i requires 0 <= i < |items| => (NatToStr(i), items[i]))
    case Str(s) => seq(|s|, i requires 0 <= i < |s| => (NatToStr(i), Str([s[i]])))
    case _ => []
  }

  // ---------------------------------------------------------------------
  // The element factory
  // ---------------------------------------------------------------------

  /** What the compiler passes as an element's type: a component function
      or anything else (a tag name). */
  datatype ElementType = Component(f: Value -> Value) | Intrinsic(t: Value)

  /** `jsx(type, props)`: a component is called with the props; any other
      type gives the element `{type, props}`. */
  function JsxCall(t: ElementType, props: Value): (e: Value)
    ensures t.Component? ==> e == t.f(props)
    ensures t.Intrinsic? ==> e == Obj([("type", t.t), ("props", props)])
  {
    match t
    case Component(f) => f(props)
    case Intrinsic(tag) => Obj([("type", tag), ("props", props)])
  }

  /** `jsxs`, the factory for elements with several children, does the
      same. */
  function JsxsCall(t: ElementType, props: Value): (e: Value)
    ensures e == JsxCall(t, props)
  {
    match t
    case Component(f) => f(props)
    case Intrinsic(tag) => Obj([("type", tag), ("props", props)])
  }

  /** `jsxFrag(props)`: an element without a type. */
  function JsxFrag(props: Value): Value {
    Obj([("props", props)])
  }

  // ---------------------------------------------------------------------
  // Rendering
  // ---------------------------------------------------------------------

  const TypeError := "TypeError"

  /** One attribute of `renderProps`, or nothing for `children` and for an
      undefined value. */
  function RenderProp(key: string, value: Value): string {
    if key != "children" && !value.Undefined? then " " + key + "=\"" + Escape(ToJsString(value)) + "\"" else ""
  }

  function RenderEntries(entries: seq<(string, Value)>): string {
    if |entries| == 0 then "" else RenderProp(entries[0].0, entries[0].1) + RenderEntries(entries[1..])
  }

  /** `renderProps(props)` */
  function RenderProps(props: Value): string {
    RenderEntries(Entries(props))
  }

  /** `JSX.render(element)`. A failure is a thrown `TypeError`: reading
      `props.children` of an element without props. */
  function Render(v: Value): Result<string>
    decreases v
  {
    match v
    case Str(s) => Success(EscapeText(s))
    case Num(n) => Success(IntToStr(n))
    case Undefined => Success("")
    case Null => Success("")
    case Bool(b) => if b then Failure(TypeError) else Success("")
    case Arr(_) => Failure(TypeError)
    case Obj(entries) =>
      var pi := FindKey(entries, "props");
      if pi == -1 then Failure(TypeError)
      else
        var props := entries[pi].1;
        if props.Undefined? || props.Null? then Failure(TypeError)
        else
          var ti := FindKey(entries, "type");
          var tag := if ti == -1 then Undefined else entries[ti].1;
          var children :- RenderChildren(props);
          if Truthy(tag) then
            Success("<" + ToJsString(tag) + RenderProps(props) + ">" + children + "</" + ToJsString(tag) + ">")
          else Success(children)
  }

  /** The rendered `props.children`: an array is flattened one level and
      its items rendered in order, anything else is rendered as it is. */
  function RenderChildren(props: Value): Result<string>
    decreases props
  {
    if !props.Obj? then Success("")
    else
      var ci := FindKey(props.entries, "children");
      if ci == -1 then Success("")
      else
        var children := props.entries[ci].1;
        if children.Arr? then RenderFlat(children.items) else Render(children)
  }

  /** `items.flat().map(render).join('')` */
  function RenderFlat(items: seq<Value>): Result<string>
    decreases items
  {
    if |items| == 0 then Success("")
    else
      var head :- if items[0].Arr? then RenderAll(items[0].items) else Render(items[0]);
      var tail :- RenderFlat(items[1..]);
      Success(head + tail)
  }

  /** `items.map(render).join('')` */
  function RenderAll(items: seq<Value>): Result<string>
    decreases items
  {
    if |items| == 0 then Success("")
    else
      var head :- Render(items[0]);
      var tail :- RenderAll(items[1..]);
      Success(head + tail)
  }

  // ---------------------------------------------------------------------
  // Properties of rendering
  // ---------------------------------------------------------------------

  /** A string child renders as text that opens and closes no tag, and
      that reads back as the string. */
  lemma RenderString(s: string)
    ensures Render(Str(s)).Success?
    ensures '<' !in Render(Str(s)).value && '>' !in Render(Str(s)).value
    ensures Unescape(Render(Str(s)).value) == s
  {
    UnescapeEscapeText(s);
  }

  /** A number renders as its decimal text, 0 included; the other falsy
      values render as nothing. */
  lemma RenderFalsy(v: Value)
    requires !Truthy(v)
    ensures v.Num? ==> Render(v) == Success(IntToStr(v.n))
    ensures !v.Num? ==> Render(v) == Success("")
  {
  }

  /** An element made by the factory from a non-empty tag name renders as
      that tag around its attributes and its children. */
  lemma RenderTag(tag: string, props: Value)
    requires tag != "" && !props.Undefined? && !props.Null?
    ensures Render(JsxCall(Intrinsic(Str(tag)), props)) ==
      match RenderChildren(props)
      case Failure(e) => Failure(e)
      case Success(c) => Success("<" + tag + RenderProps(props) + ">" + c + "</" + tag + ">")
  {
    var entries := [("type", Str(tag)), ("props", props)];
    assert FindKey(entries, "props") == 1;
    assert FindKey(entries, "type") == 0;
  }

  /** A fragment renders as just its children. */
  lemma RenderFragment(props: Value)
    requires !props.Undefined? && !props.Null?
    ensures Render(JsxFrag(props)) == RenderChildren(props)
  {
    var entries := [("props", props)];
    assert FindKey(entries, "props") == 0;
    assert FindKey(entries, "type") == -1;
  }

  /** An element without props throws. */
  lemma RenderWithoutProps(tag: Value)
    ensures Render(JsxCall(Intrinsic(tag), Undefined)) == Failure(TypeError)
  {
    var entries := [("type", tag), ("props", Undefined)];
    assert FindKey(entries, "props") == 1;
  }

  /** With no array among the items, flattening changes nothing. */
  lemma {:induction false} RenderFlatOfFlat(items: seq<Value>)
    requires forall i :: 0 <= i < |items| ==> !items[i].Arr?
    ensures RenderFlat(items) == RenderAll(items)
  {
    if |items| > 0 {
      RenderFlatOfFlat(items[1..]);
    }
  }

  /** Rendering a concatenation of items renders each part in turn. */
  lemma {:induction false} RenderAllAppend(xs: seq<Value>, ys: seq<Value>)
    ensures RenderAll(xs + ys) ==
      match RenderAll(xs)
      case Failure(e) => Failure(e)
      case Success(a) => match RenderAll(ys)
        case Failure(e) => Failure(e)
        case Success(b) => Success(a + b)
  {
    if |xs| == 0 {
      assert xs + ys == ys;
      if RenderAll(ys).Success? {
        assert "" + RenderAll(ys).value == RenderAll(ys).value;
      }
    } else {
      assert (xs + ys)[0] == xs[0] && (xs + ys)[1..] == xs[1..] + ys;
      RenderAllAppend(xs[1..], ys);
      if Render(xs[0]).Success? && RenderAll(xs[1..]).Success? && RenderAll(ys).Success? {
        AppendAssoc(Render(xs[0]).value, RenderAll(xs[1..]).value, RenderAll(ys).value);
      }
    }
  }

  /** An array child inside the children array is spliced in: one level of
      nesting renders the same as none. */
  lemma FlattenOneLevel(xs: seq<Value>, ys: seq<Value>)
    requires forall i :: 0 <= i < |xs| ==> !xs[i].Arr?
    requires forall i :: 0 <= i < |ys| ==> !ys[i].Arr?
    ensures RenderFlat([Arr(xs)] + ys) == RenderFlat(xs + ys)
  {
    var items := [Arr(xs)] + ys;
    assert items[0] == Arr(xs) && items[1..] == ys;
    RenderFlatOfFlat(ys);
    RenderFlatOfFlat(xs + ys);
    RenderAllAppend(xs, ys);
  }

  /** A second level of nesting is not flattened: the inner array is
      rendered as an element, and that throws. */
  lemma NestedArrayThrows(xs: seq<Value>)
    ensures RenderFlat([Arr([Arr(xs)])]) == Failure(TypeError)
  {
    assert [Arr([Arr(xs)])][0] == Arr([Arr(xs)]);
    assert [Arr(xs)][0] == Arr(xs);
    assert Render(Arr(xs)) == Failure(TypeError);
    assert RenderAll([Arr(xs)]) == Failure(TypeError);
  }

  /** The attributes skip `children` and undefined values and keep the
      others, in order, each value escaped. */
  lemma {:induction false} RenderEntriesAppend(a: seq<(string, Value)>, b: seq<(string, Value)>)
    ensures RenderEntries(a + b) == RenderEntries(a) + RenderEntries(b)
  {
    if |a| == 0 {
      assert a + b == b;
    } else {
      assert (a + b)[0] == a[0] && (a + b)[1..] == a[1..] + b;
      RenderEntriesAppend(a[1..], b);
      AppendAssoc(RenderProp(a[0].0, a[0].1), RenderEntries(a[1..]), RenderEntries(b));
    }
  }

  /** Adding `children` or an undefined property adds no attribute; adding
      another string property adds `key="escaped value"`. */
  lemma RenderPropsOfObject(entries: seq<(string, Value)>, key: string, value: Value)
    ensures key == "children" || value.Undefined? ==>
      RenderProps(Obj(entries + [(key, value)])) == RenderProps(Obj(entries))
    ensures key != "children" && value.Str? ==>
      RenderProps(Obj(entries + [(key, value)])) == RenderProps(Obj(entries)) + (" " + key + "=\"" + Escape(value.s) + "\"")
  {
    RenderEntriesAppend(entries, [(key, value)]);
    assert RenderEntries([(key, value)]) == RenderProp(key, value) + RenderEntries([]);
  }

  /** No attribute value can end its quotes early. */
  lemma AttributeValueHasNoQuote(key: string, value: Value)
    requires key != "children" && !value.Undefined?
    ensures var a := RenderProp(key, value);
      a == " " + key + "=\"" + Escape(ToJsString(value)) + "\"" && '"' !in Escape(ToJsString(value))
  {
  }

  // ---------------------------------------------------------------------
  // id_selector
  // ---------------------------------------------------------------------

  /** The punctuation `id_selector` escapes with a backslash: every
      printable ASCII character that is not a letter, a digit, `-` or `_`
      (the class `[!"#$%&'()*+,./:;<=>?@[\\\]^`{|}~]`). */
  predicate CssSpecial(c: char) {
    ('!' <= c <= ',') || c == '.' || c == '/' || (':' <= c <= '@') || ('[' <= c <= '^') || c == '`' || ('{' <= c <= '~')
  }

  function CssEscape(s: string): (e: string)
    ensures |e| >= |s|
  {
    if |s| == 0 then ""
    else (if CssSpecial(s[0]) then ['\\', s[0]] else [s[0]]) + CssEscape(s[1..])
  }

  /** Reads an escaped identifier back: a backslash takes the next
      character as it is. */
  function CssUnescape(e: string): string
    decreases |e|
  {
    if |e| == 0 then ""
    else if e[0] == '\\' && |e| >= 2 then [e[1]] + CssUnescape(e[2..])
    else [e[0]] + CssUnescape(e[1..])
  }

  /** Escaping an identifier loses nothing. */
  lemma {:induction false} CssUnescapeEscape(s: string)
    ensures CssUnescape(CssEscape(s)) == s
  {
    if |s| > 0 {
      var rest := CssEscape(s[1..]);
      CssUnescapeEscape(s[1..]);
      if CssSpecial(s[0]) {
        var e := ['\\', s[0]] + rest;
        assert e[0] == '\\' && e[1] == s[0] && e[2..] == rest;
      } else {
        var e := [s[0]] + rest;
        assert CssSpecial('\\');
        assert e[0] == s[0] && e[1..] == rest;
      }
      assert s == [s[0]] + s[1..];
    }
  }

  /** What `id_selector` is given. */
  datatype Id = NumberId(n: int) | StringId(s: string)

  /** `id_selector(id)`: an attribute selector for a number or an escaped
      identifier starting with a digit, otherwise `#` and the escaped
      identifier. The test is on the first character after escaping; an
      empty identifier gives `#`. */
  function IdSelector(id: Id): string {
    match id
    case NumberId(n) => "[id=\"" + IntToStr(n) + "\"]"
    case StringId(s) =>
      var e := CssEscape(s);
      if |e| > 0 && '0' <= e[0] <= '9' then "[id=\"" + e + "\"]" else "#" + e
  }

  /** A string identifier gets the attribute form exactly when it starts
      with a digit, and either form holds the escaped identifier. */
  lemma IdSelectorForm(s: string)
    ensures var e := CssEscape(s);
      if |s| > 0 && '0' <= s[0] <= '9' then IdSelector(StringId(s)) == "[id=\"" + e + "\"]"
      else IdSelector(StringId(s)) == "#" + e
  {
    if |s| > 0 {
      assert CssEscape(s)[0] == (if CssSpecial(s[0]) then '\\' else s[0]);
    }
  }
}
