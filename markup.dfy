/**
  * The HTML fragments an element contributes (`attributeName`,
  * `renderElementProps`, `renderElementStyle`, `renderOpenElement`,
  * `renderCloseElement` and the close-tag cache in src/vdom.ts).
  *
  * Values go through the corrected escaper (`Escape.Escaped`); the escaper
  * as written is modelled, and compared with it, in the Escape module.
  */
module Markup {
  import opened Escape
  import opened Nodes

  /** `attributeName`: the two property names that differ from their HTML attribute. */
  function AttributeName(name: string): (r: string)
    ensures name == "acceptCharset" ==> r == "accept-charset"
    ensures name == "htmlFor" ==> r == "for"
    ensures name != "acceptCharset" && name != "htmlFor" ==> r == name
  {
    if name == "acceptCharset" then "accept-charset"
    else if name == "htmlFor" then "for"
    else name
  }

  /** The text of a non-null value inside an attribute: `toString` of a boolean, an escaped string. */
  function ValueText(v: Value): string
    requires !v.Null?
  {
    match v
    case Bool(b) => if b then "true" else "false"
    case Str(s) => Escaped(AttributeValue, s)
  }

  /**
    * What one property adds to an open tag: nothing for null, the bare name
    * for `true` (not passed through `AttributeName`), otherwise
    * ` name="value"` -- `false` included.
    */
  function Attribute(name: string, v: Value): string {
    if v.Null? then ""
    else if v == Bool(true) then " " + name
    else " " + AttributeName(name) + "=\"" + ValueText(v) + "\""
  }

  /** The attributes of a props object, in key order. */
  function PropsMarkup(fields: seq<(string, Value)>): string {
    if |fields| == 0 then ""
    else PropsMarkup(fields[..|fields| - 1]) + Attribute(fields[|fields| - 1].0, fields[|fields| - 1].1)
  }

  /** `renderElementProps`: one pass over the keys, appending each property's attribute. */
  method RenderElementProps(props: Obj) returns (r: string)
    ensures r == PropsMarkup(props.fields)
  {
    var fields := props.fields;
    r := "";
    var i := 0;
    while i < |fields|
      invariant 0 <= i <= |fields|
      invariant r == PropsMarkup(fields[..i])
    {
      var (key, value) := fields[i];
      if !value.Null? {
        if value == Bool(true) {
          r := r + (" " + key);
        } else {
          r := r + (" " + AttributeName(key) + "=\"" + ValueText(value) + "\"");
        }
      }
      assert fields[..i + 1][..i] == fields[..i];
      i := i + 1;
    }
    assert fields[..i] == fields;
  }

  /** Rendering props is a homomorphism from concatenated key lists to concatenated markup. */
  lemma {:induction false} PropsMarkupAppend(a: seq<(string, Value)>, b: seq<(string, Value)>)
    ensures PropsMarkup(a + b) == PropsMarkup(a) + PropsMarkup(b)
  {
    if |b| > 0 {
      var b' := b[..|b| - 1];
      assert (a + b)[..|a + b| - 1] == a + b';
      PropsMarkupAppend(a, b');
    } else {
      assert a + b == a;
    }
  }

  /** The properties that are not null. */
  function NonNull(fields: seq<(string, Value)>): (r: seq<(string, Value)>)
    ensures forall i :: 0 <= i < |r| ==> !r[i].1.Null?
  {
    if |fields| == 0 then []
    else NonNull(fields[..|fields| - 1]) + (if fields[|fields| - 1].1.Null? then [] else [fields[|fields| - 1]])
  }

  /** Null properties contribute nothing: dropping them leaves the markup unchanged. */
  lemma {:induction false} NullPropsEmitNothing(fields: seq<(string, Value)>)
    ensures PropsMarkup(NonNull(fields)) == PropsMarkup(fields)
  {
    if |fields| > 0 {
      var init, last := fields[..|fields| - 1], fields[|fields| - 1];
      NullPropsEmitNothing(init);
      if last.1.Null? {
        assert NonNull(fields) == NonNull(init) + [];
        assert NonNull(init) + [] == NonNull(init);
      } else {
        assert NonNull(fields) == NonNull(init) + [last];
        PropsMarkupAppend(NonNull(init), [last]);
        OnePropertyMarkup([last]);
      }
    }
  }

  /** The number of occurrences of `c` in `s`. */
  function Occurrences(c: char, s: string): nat {
    if |s| == 0 then 0 else Occurrences(c, s[..|s| - 1]) + (if s[|s| - 1] == c then 1 else 0)
  }

  lemma {:induction false} OccurrencesAppend(c: char, a: string, b: string)
    ensures Occurrences(c, a + b) == Occurrences(c, a) + Occurrences(c, b)
  {
    if |b| > 0 {
      assert (a + b)[..|a + b| - 1] == a + b[..|b| - 1];
      OccurrencesAppend(c, a, b[..|b| - 1]);
    } else {
      assert a + b == a;
    }
  }

  lemma {:induction false} NoOccurrences(c: char, s: string)
    requires forall i :: 0 <= i < |s| ==> s[i] != c
    ensures Occurrences(c, s) == 0
  {
    if |s| > 0 {
      NoOccurrences(c, s[..|s| - 1]);
    }
  }

  /** The number of properties rendered as ` name="value"`. */
  function Valued(fields: seq<(string, Value)>): nat {
    if |fields| == 0 then 0
    else
      var v := fields[|fields| - 1].1;
      Valued(fields[..|fields| - 1]) + (if v.Null? || v == Bool(true) then 0 else 1)
  }

  /** Property names without a double quote. */
  predicate QuoteFreeNames(fields: seq<(string, Value)>) {
    forall i, j :: 0 <= i < |fields| && 0 <= j < |fields[i].0| ==> fields[i].0[j] != '"'
  }

  /**
    * No value can close its attribute: when the names hold no double quote,
    * the markup holds exactly two per valued attribute.
    */
  lemma {:induction false} AttributeQuotesBalanced(fields: seq<(string, Value)>)
    requires QuoteFreeNames(fields)
    ensures Occurrences('"', PropsMarkup(fields)) == 2 * Valued(fields)
  {
    if |fields| > 0 {
      var init := fields[..|fields| - 1];
      var (name, v) := fields[|fields| - 1];
      assert QuoteFreeNames(init) by {
        forall i, j | 0 <= i < |init| && 0 <= j < |init[i].0|
          ensures init[i].0[j] != '"'
        {
          assert init[i] == fields[i];
        }
      }
      AttributeQuotesBalanced(init);
      OccurrencesAppend('"', PropsMarkup(init), Attribute(name, v));
      assert forall j :: 0 <= j < |name| ==> name[j] != '"' by {
        assert name == fields[|fields| - 1].0;
      }
      AttributeQuotes(name, v);
    }
  }

  lemma AttributeQuotes(name: string, v: Value)
    requires forall j :: 0 <= j < |name| ==> name[j] != '"'
    ensures Occurrences('"', Attribute(name, v)) == if v.Null? || v == Bool(true) then 0 else 2
  {
    if v.Null? {
    } else if v == Bool(true) {
      NoOccurrences('"', " " + name);
    } else {
      if v.Str? {
        EscapedIsSafe(AttributeValue, v.s);
      }
      ValuedAttributeQuotes(AttributeName(name), ValueText(v));
    }
  }

  lemma ValuedAttributeQuotes(n: string, text: string)
    requires forall j :: 0 <= j < |n| ==> n[j] != '"'
    requires forall j :: 0 <= j < |text| ==> text[j] != '"'
    ensures Occurrences('"', " " + n + "=\"" + text + "\"") == 2
  {
    var head := " " + n;
    NoOccurrences('"', head);
    NoOccurrences('"', text);
    OneQuote();
    OccurrencesAppend('"', head, "=\"");
    OccurrencesAppend('"', head + "=\"", text);
    OccurrencesAppend('"', head + "=\"" + text, "\"");
  }

  lemma OneQuote()
    ensures Occurrences('"', "=\"") == 1 && Occurrences('"', "\"") == 1
  {
    assert "=\""[..1] == "=" && "=\""[..1][..0] == [] && "\""[..0] == [];
  }

  /**
    * `true` renders the bare name, `false` renders `="false"` (it is not
    * omitted), and null renders nothing.
    */
  lemma BooleanAttributes()
    ensures PropsMarkup([("disabled", Bool(true)), ("hidden", Bool(false)), ("title", Null)])
            == " disabled" + " hidden=\"false\""
  {
    var f := [("disabled", Bool(true)), ("hidden", Bool(false)), ("title", Null)];
    assert f[..2][..1][..0] == [] && f[..2][..1] == [f[0]] && f[..2] == [f[0], f[1]];
    assert PropsMarkup([f[0]]) == " disabled" by {
      OnePropertyMarkup([f[0]]);
    }
    assert Attribute("hidden", Bool(false)) == " hidden=\"false\"";
  }

  /** An object with one property renders as that one attribute. */
  lemma OnePropertyMarkup(f: seq<(string, Value)>)
    requires |f| == 1
    ensures PropsMarkup(f) == Attribute(f[0].0, f[0].1)
  {
    assert f[..0] == [];
  }

  /** `htmlFor` with a value renders as `for`, but as a bare `true` it keeps its own name. */
  lemma RenamedOnlyWithValue()
    ensures Attribute("htmlFor", Str("x")) == " for=\"x\""
    ensures Attribute("htmlFor", Bool(true)) == " htmlFor"
  {
    assert NoSpecial(AttributeValue, "x");
    NoSpecialUnchanged(AttributeValue, "x");
  }

  /** One style declaration: the name, a colon and the escaped value. */
  function Declaration(name: string, value: string): string {
    name + ":" + Escaped(AttributeValue, value)
  }

  /** The declarations of a style object separated by semicolons. */
  function StyleBody(fields: seq<(string, string)>): string {
    if |fields| == 0 then ""
    else if |fields| == 1 then Declaration(fields[0].0, fields[0].1)
    else StyleBody(fields[..|fields| - 1]) + ";" + Declaration(fields[|fields| - 1].0, fields[|fields| - 1].1)
  }

  /** The style attribute of a style object; an object without keys renders nothing. */
  function StyleMarkup(fields: seq<(string, string)>): string {
    if |fields| == 0 then "" else " style=\"" + StyleBody(fields) + "\""
  }

  /** `renderElementStyle`: a separator before every declaration but the first. */
  method RenderElementStyle(style: StyleObj) returns (r: string)
    ensures r == StyleMarkup(style.fields)
  {
    var fields := style.fields;
    if |fields| == 0 {
      return "";
    }
    var result := " style=\"";
    var semicolon := false;
    var i := 0;
    while i < |fields|
      invariant 0 <= i <= |fields|
      invariant semicolon == (i > 0)
      invariant result == " style=\"" + StyleBody(fields[..i])
    {
      var (key, value) := fields[i];
      if semicolon {
        result := result + ";";
      } else {
        semicolon := true;
      }
      result := result + key + ":" + Escaped(AttributeValue, value);
      assert fields[..i + 1][..i] == fields[..i];
      i := i + 1;
    }
    assert fields[..i] == fields;
    r := result + "\"";
  }

  /** A declaration whose name and value hold no semicolon, ampersand or double quote. */
  predicate PlainDeclaration(d: (string, string)) {
    (forall j :: 0 <= j < |d.0| ==> d.0[j] != ';')
    && (forall j :: 0 <= j < |d.1| ==> d.1[j] != ';' && d.1[j] != '&' && d.1[j] != '"')
  }

  /**
    * Declarations are separated, not terminated: `n` plain declarations
    * produce exactly `n - 1` semicolons (an escaped `&` or `"` would add one
    * each, through its entity).
    */
  lemma {:induction false} StyleSemicolons(fields: seq<(string, string)>)
    requires |fields| > 0
    requires forall i :: 0 <= i < |fields| ==> PlainDeclaration(fields[i])
    ensures Occurrences(';', StyleBody(fields)) == |fields| - 1
  {
    var d := fields[|fields| - 1];
    DeclarationSemicolons(d);
    if |fields| > 1 {
      var init := fields[..|fields| - 1];
      assert forall i :: 0 <= i < |init| ==> PlainDeclaration(init[i]) by {
        forall i | 0 <= i < |init| ensures PlainDeclaration(init[i]) {
          assert init[i] == fields[i];
        }
      }
      StyleSemicolons(init);
      assert Occurrences(';', ";") == 1 by {
        assert ";"[..0] == [];
      }
      OccurrencesAppend(';', StyleBody(init), ";");
      OccurrencesAppend(';', StyleBody(init) + ";", Declaration(d.0, d.1));
    }
  }

  lemma DeclarationSemicolons(d: (string, string))
    requires PlainDeclaration(d)
    ensures Occurrences(';', Declaration(d.0, d.1)) == 0
  {
    assert NoSpecial(AttributeValue, d.1) by {
      forall j | 0 <= j < |d.1| ensures !IsSpecial(AttributeValue, d.1[j]) {
        assert d.1[j] != '&' && d.1[j] != '"';
      }
    }
    NoSpecialUnchanged(AttributeValue, d.1);
    NoOccurrences(';', Declaration(d.0, d.1));
  }

  /** The class attribute; the class name is inserted as it is, without escaping. */
  function ClassMarkup(className: Option<string>): string {
    if className.None? then "" else " class=\"" + className.value + "\""
  }

  /** `renderOpenElement`: tag name, class, props and style, in that order. */
  function RenderOpenElement(n: VNode): (r: string)
    requires n.Element?
    ensures |r| >= |n.tag| + 2 && r[..|n.tag| + 1] == "<" + n.tag && r[|r| - 1] == '>'
    ensures n.className.None? && n.props.None? && n.style.None? ==> r == "<" + n.tag + ">"
  {
    var props := if n.props.Some? then PropsMarkup(n.props.value.fields) else "";
    var style := if n.style.Some? then StyleMarkup(n.style.value.fields) else "";
    var r := "<" + n.tag + ClassMarkup(n.className) + props + style + ">";
    assert r[..|n.tag| + 1] == "<" + n.tag;
    r
  }

  /**
    * Because the class name is not escaped, a class name holding a quote
    * renders exactly like a different element: one with a shorter class
    * name and an extra attribute.
    */
  lemma ClassNameNotEscaped()
    ensures var injected := Element(0, Num(0), false, "div", None, None, Some("x\" onclick=\"y"), NoChildren);
            var honest := Element(1, Num(0), false, "div", Some(Obj(2, [("onclick", Str("y"))])), None, Some("x"), NoChildren);
            injected != honest && RenderOpenElement(injected) == RenderOpenElement(honest)
  {
    InjectedOpenTag();
    HonestOpenTag();
    SameMarkup();
  }

  lemma InjectedOpenTag()
    ensures RenderOpenElement(Element(0, Num(0), false, "div", None, None, Some("x\" onclick=\"y"), NoChildren))
            == "<div" + (" class=\"" + "x\" onclick=\"y" + "\"") + ">"
  {
  }

  lemma HonestOpenTag()
    ensures RenderOpenElement(Element(1, Num(0), false, "div", Some(Obj(2, [("onclick", Str("y"))])), None, Some("x"), NoChildren))
            == "<div" + (" class=\"" + "x" + "\"") + " onclick=\"y\"" + ">"
  {
    OnclickProps();
  }

  lemma OnclickProps()
    ensures PropsMarkup([("onclick", Str("y"))]) == " onclick=\"y\""
  {
    OnePropertyMarkup([("onclick", Str("y"))]);
    assert Escaped(AttributeValue, "y") == "y";
  }

  lemma SameMarkup()
    ensures "<div" + (" class=\"" + "x\" onclick=\"y" + "\"") + ">"
            == "<div" + (" class=\"" + "x" + "\"") + " onclick=\"y\"" + ">"
  {
  }

  /** `renderCloseElement`. */
  function CloseTag(tag: string): (r: string)
    ensures |r| == |tag| + 3 && r[..2] == "</" && r[2..|r| - 1] == tag && r[|r| - 1] == '>'
  {
    "</" + tag + ">"
  }

  /** Close tags of different elements differ. */
  lemma CloseTagInjective(a: string, b: string)
    requires CloseTag(a) == CloseTag(b)
    ensures a == b
  {
    assert a == CloseTag(a)[2..|CloseTag(a)| - 1];
  }

  /**
    * The process-wide close-tag cache: a map from tag name to its close tag,
    * filled on first use. `Valid` is the invariant that makes it a pure
    * memo of `CloseTag`.
    */
  class CloseTagCache {
    var entries: map<string, string>

    ghost predicate Valid()
      reads this
    {
      forall tag :: tag in entries ==> entries[tag] == CloseTag(tag)
    }

    constructor()
      ensures Valid() && entries == map[]
    {
      entries := map[];
    }

    /** The cached close tag, rendering and storing it on a miss. */
    method Get(tag: string) returns (close: string)
      requires Valid()
      modifies this
      ensures Valid()
      ensures close == CloseTag(tag)
      ensures entries == old(entries)[tag := close]
    {
      if tag in entries {
        close := entries[tag];
      } else {
        close := CloseTag(tag);
        entries := entries[tag := close];
      }
    }
  }
}
