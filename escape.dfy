/**
  * Markup escaping for the string renderer (`escapeText` and
  * `escapeAttributeValue` in src/vdom.ts).
  *
  * Both escapers are the same scan-and-splice loop over different tables:
  * element text replaces `&`, `<` and `>`; attribute and style values
  * replace `"` and `&` only. `Escaped` is the specification (each character
  * replaced by its entity, everything else kept in order); `Splice` is the
  * loop, proved against it. `SpliceAsWritten` is the loop exactly as the
  * source writes it, which differs from `Escaped` when the very first
  * character must be escaped.
  */
module Escape {

  /** Which of the two escapers: element text, or attribute and style values. */
  datatype Escaping = TextContent | AttributeValue

  /** The characters an escaper replaces. */
  predicate IsSpecial(e: Escaping, c: char) {
    match e
    case TextContent => c == '&' || c == '<' || c == '>'
    case AttributeValue => c == '"' || c == '&'
  }

  /** What one character becomes: its entity when special, itself otherwise. */
  function Replacement(e: Escaping, c: char): (r: string)
    ensures !IsSpecial(e, c) <==> r == [c]
    ensures IsSpecial(e, c) ==> |r| >= 4 && r[0] == '&'
  {
    if !IsSpecial(e, c) then [c]
    else if c == '&' then "&amp;"
    else if c == '<' then "&lt;"
    else if c == '>' then "&gt;"
    else "&quot;"
  }

  /** The escaped form of `s`: every character replaced, in order. */
  function Escaped(e: Escaping, s: string): string {
    if s == [] then [] else Replacement(e, s[0]) + Escaped(e, s[1..])
  }

  predicate NoSpecial(e: Escaping, s: string) {
    forall i :: 0 <= i < |s| ==> !IsSpecial(e, s[i])
  }

  /** Escaping distributes over concatenation. */
  lemma {:induction false} EscapedAppend(e: Escaping, s: string, t: string)
    ensures Escaped(e, s + t) == Escaped(e, s) + Escaped(e, t)
  {
    if s == [] {
      assert s + t == t;
    } else {
      assert (s + t)[1..] == s[1..] + t;
      EscapedAppend(e, s[1..], t);
    }
  }

  /** Escaping never shortens its input. */
  lemma {:induction false} EscapedLength(e: Escaping, s: string)
    ensures |Escaped(e, s)| >= |s|
    ensures !NoSpecial(e, s) ==> |Escaped(e, s)| > |s|
  {
    if s != [] {
      EscapedLength(e, s[1..]);
      if !NoSpecial(e, s) && !IsSpecial(e, s[0]) {
        var i :| 0 <= i < |s| && IsSpecial(e, s[i]);
        assert s[1..][i - 1] == s[i];
      }
    }
  }

  /** A string is returned unchanged exactly when it holds no special character. */
  lemma {:induction false} EscapedUnchangedIff(e: Escaping, s: string)
    ensures Escaped(e, s) == s <==> NoSpecial(e, s)
  {
    EscapedLength(e, s);
    if NoSpecial(e, s) {
      NoSpecialUnchanged(e, s);
    }
  }

  lemma {:induction false} NoSpecialUnchanged(e: Escaping, s: string)
    requires NoSpecial(e, s)
    ensures Escaped(e, s) == s
  {
    if s != [] {
      assert !IsSpecial(e, s[0]);
      assert NoSpecial(e, s[1..]) by {
        forall i | 0 <= i < |s[1..]| ensures !IsSpecial(e, s[1..][i]) {
          assert s[1..][i] == s[i + 1];
        }
      }
      NoSpecialUnchanged(e, s[1..]);
    }
  }

  /**
    * The output of the text escaper holds no raw `<` or `>`, and the output
    * of the attribute escaper holds no raw `"`: neither can close a tag or an
    * attribute value early.
    */
  lemma {:induction false} EscapedIsSafe(e: Escaping, s: string)
    ensures e == TextContent ==> forall i :: 0 <= i < |Escaped(e, s)| ==> Escaped(e, s)[i] != '<' && Escaped(e, s)[i] != '>'
    ensures e == AttributeValue ==> forall i :: 0 <= i < |Escaped(e, s)| ==> Escaped(e, s)[i] != '"'
  {
    if s != [] {
      EscapedIsSafe(e, s[1..]);
      var head, tail := Replacement(e, s[0]), Escaped(e, s[1..]);
      forall i | 0 <= i < |head + tail|
        ensures e == TextContent ==> (head + tail)[i] != '<' && (head + tail)[i] != '>'
        ensures e == AttributeValue ==> (head + tail)[i] != '"'
      {
        if i >= |head| {
          assert (head + tail)[i] == tail[i - |head|];
        }
      }
    }
  }

  /** Reads the entities back: the inverse of `Escaped`. */
  function Unescape(e: Escaping, t: string): string
    decreases |t|
  {
    if t == [] then []
    else if |t| >= 5 && t[0] == '&' && t[1] == 'a' && t[2] == 'm' && t[3] == 'p' && t[4] == ';' then
      "&" + Unescape(e, t[5..])
    else if e == TextContent && |t| >= 4 && t[0] == '&' && t[1] == 'l' && t[2] == 't' && t[3] == ';' then
      "<" + Unescape(e, t[4..])
    else if e == TextContent && |t| >= 4 && t[0] == '&' && t[1] == 'g' && t[2] == 't' && t[3] == ';' then
      ">" + Unescape(e, t[4..])
    else if e == AttributeValue && |t| >= 6 && t[0] == '&' && t[1] == 'q' && t[2] == 'u' && t[3] == 'o'
            && t[4] == 't' && t[5] == ';' then
      "\"" + Unescape(e, t[6..])
    else [t[0]] + Unescape(e, t[1..])
  }

  /** Unescaping undoes escaping, for both escapers and every input. */
  lemma {:induction false} UnescapeEscaped(e: Escaping, s: string)
    ensures Unescape(e, Escaped(e, s)) == s
  {
    if s != [] {
      UnescapeEscaped(e, s[1..]);
      UnescapeReplacement(e, s[0], Escaped(e, s[1..]));
    }
  }

  /** Reading back the replacement of one character gives that character. */
  lemma UnescapeReplacement(e: Escaping, c: char, rest: string)
    ensures Unescape(e, Replacement(e, c) + rest) == [c] + Unescape(e, rest)
  {
    var head := Replacement(e, c);
    var t := head + rest;
    assert t[|head|..] == rest;
    if !IsSpecial(e, c) {
      assert t[0] == c;
    } else if c == '&' {
      assert t[0] == '&' && t[1] == 'a' && t[2] == 'm' && t[3] == 'p' && t[4] == ';';
    } else if c == '<' {
      assert t[0] == '&' && t[1] == 'l' && t[2] == 't' && t[3] == ';';
    } else if c == '>' {
      assert t[0] == '&' && t[1] == 'g' && t[2] == 't' && t[3] == ';';
    } else {
      assert t[0] == '&' && t[1] == 'q' && t[2] == 'u' && t[3] == 'o' && t[4] == 't' && t[5] == ';';
    }
  }

  /** Distinct strings escape to distinct strings. */
  lemma EscapedInjective(e: Escaping, s: string, t: string)
    requires Escaped(e, s) == Escaped(e, t)
    ensures s == t
  {
    UnescapeEscaped(e, s);
    UnescapeEscaped(e, t);
  }

  /** Text escaping replaces each of the three special characters by its entity. */
  lemma TextEscapingExample()
    ensures Escaped(TextContent, "<&>") == "&lt;&amp;&gt;"
  {
    var t := TextContent;
    assert Escaped(t, ">") == "&gt;";
    assert Escaped(t, "&>") == "&amp;&gt;";
  }

  /** Text escaping keeps ordinary characters and quotes in place. */
  lemma TextEscapingKeepsQuotes()
    ensures Escaped(TextContent, "a\"b") == "a\"b"
  {
    NoSpecialUnchanged(TextContent, "a\"b");
  }

  /** Attribute escaping replaces `"` and `&`. */
  lemma AttributeEscapingExample()
    ensures Escaped(AttributeValue, "\"&") == "&quot;&amp;"
  {
    assert Escaped(AttributeValue, "&") == "&amp;";
  }

  /** Attribute escaping passes `<` and `>` through. */
  lemma AttributeEscapingKeepsBrackets()
    ensures Escaped(AttributeValue, "<b>") == "<b>"
  {
    NoSpecialUnchanged(AttributeValue, "<b>");
  }

  /** The source's escapers agree with `Escaped` exactly when the first character is not special. */
  lemma AsWrittenAgreesIff(e: Escaping, text: string)
    ensures AsWritten(e, text) == Escaped(e, text) <==> (text == [] || !IsSpecial(e, text[0]))
  {
    if text != [] && IsSpecial(e, text[0]) {
      assert |AsWritten(e, text)| == |text| + |Escaped(e, text)|;
    }
  }

  /** The text that the source prepends by mistake (see `SpliceAsWritten`). */
  function Lead(e: Escaping, text: string): string {
    if |text| > 0 && IsSpecial(e, text[0]) then text else []
  }

  /** What the source's escapers return for `text`. */
  function AsWritten(e: Escaping, text: string): string {
    Lead(e, text) + Escaped(e, text)
  }

  /**
    * `Escaped` of the first `k` characters, built from the left the way both
    * loops build their result.
    */
  ghost function EscapedTo(e: Escaping, s: string, k: nat): string
    requires k <= |s|
  {
    if k == 0 then [] else EscapedTo(e, s, k - 1) + Replacement(e, s[k - 1])
  }

  lemma {:induction false} EscapedToPrefix(e: Escaping, s: string, k: nat)
    requires k <= |s|
    ensures EscapedTo(e, s, k) == Escaped(e, s[..k])
  {
    if k > 0 {
      EscapedToPrefix(e, s, k - 1);
      assert s[..k] == s[..k - 1] + [s[k - 1]];
      EscapedAppend(e, s[..k - 1], [s[k - 1]]);
      assert [s[k - 1]][1..] == [];
    } else {
      assert s[..0] == [];
    }
  }

  /** A run without special characters is copied as it is. */
  lemma {:induction false} RunCopied(e: Escaping, s: string, start: nat, i: nat)
    requires start <= i <= |s|
    requires forall j :: start <= j < i ==> !IsSpecial(e, s[j])
    ensures EscapedTo(e, s, i) == EscapedTo(e, s, start) + s[start..i]
  {
    if i > start {
      RunCopied(e, s, start, i - 1);
      assert s[start..i] == s[start..i - 1] + [s[i - 1]];
      assert Replacement(e, s[i - 1]) == [s[i - 1]];
      Regroup(EscapedTo(e, s, start), s[start..i - 1], [s[i - 1]]);
    } else {
      assert s[start..i] == [];
    }
  }

  lemma Regroup(a: string, b: string, c: string)
    ensures a + b + c == a + (b + c)
  {
  }

  /**
    * The source loop, line for line: `result` starts as the whole input,
    * and is replaced by the first untouched slice only when that slice is
    * non-empty (`i > start`). When `text[0]` is special the slice is empty,
    * so the input is kept and the escaped text is appended after it.
    */
  method SpliceAsWritten(e: Escaping, text: string) returns (r: string)
    ensures r == AsWritten(e, text)
  {
    var result := text;
    var start := 0;
    var i := 0;
    while i < |text|
      invariant 0 <= start <= i <= |text|
      invariant forall j :: start <= j < i ==> !IsSpecial(e, text[j])
      invariant result == Accumulated(e, text, start)
    {
      if IsSpecial(e, text[i]) {
        AsWrittenStep(e, text, start, i);
        if i > start {
          if start != 0 {
            result := result + text[start..i];
          } else {
            result := text[start..i];
          }
        }
        result := result + Replacement(e, text[i]);
        start := i + 1;
      }
      i := i + 1;
    }
    AsWrittenEnd(e, text, start);
    if start != 0 && i != start {
      r := result + text[start..i];
    } else {
      r := result;
    }
  }

  /** The source's `result` once the characters before `start` are consumed. */
  ghost function Accumulated(e: Escaping, text: string, start: nat): string
    requires start <= |text|
  {
    if start == 0 then text else Lead(e, text) + EscapedTo(e, text, start)
  }

  /** One iteration of the source loop at a special character `text[i]`. */
  lemma AsWrittenStep(e: Escaping, text: string, start: nat, i: nat)
    requires start <= i < |text| && IsSpecial(e, text[i])
    requires forall j :: start <= j < i ==> !IsSpecial(e, text[j])
    ensures (if i > start then (if start != 0 then Accumulated(e, text, start) + text[start..i] else text[start..i])
             else Accumulated(e, text, start)) + Replacement(e, text[i])
            == Accumulated(e, text, i + 1)
  {
    if start == 0 && i == 0 {
      FirstAtStart(e, text);
    } else if start == 0 {
      FirstAfterRun(e, text, i);
    } else {
      LaterStep(e, text, start, i);
    }
  }

  /** A special first character: the source keeps the whole input and appends the entity to it. */
  lemma FirstAtStart(e: Escaping, text: string)
    requires |text| > 0 && IsSpecial(e, text[0])
    ensures Accumulated(e, text, 1) == text + Replacement(e, text[0])
  {
    assert EscapedTo(e, text, 1) == Replacement(e, text[0]);
  }

  /** The first special character after a run: the run replaces the copy of the input. */
  lemma FirstAfterRun(e: Escaping, text: string, i: nat)
    requires 0 < i < |text|
    requires forall j :: 0 <= j < i ==> !IsSpecial(e, text[j])
    ensures Accumulated(e, text, i + 1) == text[0..i] + Replacement(e, text[i])
  {
    var run, rep := text[0..i], Replacement(e, text[i]);
    RunCopied(e, text, 0, i);
    EmptyLeft(run);
    assert EscapedTo(e, text, i + 1) == run + rep;
    assert Lead(e, text) == [] by {
      assert !IsSpecial(e, text[0]);
    }
    EmptyLeft(run + rep);
  }

  lemma EmptyLeft(a: string)
    ensures [] + a == a
  {
  }

  /** A later special character: the run since the previous one is appended to `result`. */
  lemma LaterStep(e: Escaping, text: string, start: nat, i: nat)
    requires 0 < start <= i < |text|
    requires forall j :: start <= j < i ==> !IsSpecial(e, text[j])
    ensures Accumulated(e, text, i + 1) == Accumulated(e, text, start) + text[start..i] + Replacement(e, text[i])
  {
    var lead, before, run, rep := Lead(e, text), EscapedTo(e, text, start), text[start..i], Replacement(e, text[i]);
    RunCopied(e, text, start, i);
    assert EscapedTo(e, text, i + 1) == before + run + rep;
    Regroup(lead, before + run, rep);
    Regroup(lead, before, run);
  }

  /** The source's return statement after the scan. */
  lemma AsWrittenEnd(e: Escaping, text: string, start: nat)
    requires start <= |text|
    requires forall j :: start <= j < |text| ==> !IsSpecial(e, text[j])
    ensures (if start != 0 && |text| != start then Accumulated(e, text, start) + text[start..|text|]
             else Accumulated(e, text, start)) == AsWritten(e, text)
  {
    if start == 0 {
      NoSpecialUnchanged(e, text);
    } else {
      RunCopied(e, text, start, |text|);
      EscapedToPrefix(e, text, |text|);
      assert text[..|text|] == text;
      Regroup(Lead(e, text), EscapedTo(e, text, start), text[start..|text|]);
    }
  }

  /**
    * The loop as evidently intended: the first special character always
    * replaces the untouched copy of the input, even when it is at index 0.
    */
  method Splice(e: Escaping, text: string) returns (r: string)
    ensures r == Escaped(e, text)
  {
    var result := text;
    var start := 0;
    var i := 0;
    while i < |text|
      invariant 0 <= start <= i <= |text|
      invariant forall j :: start <= j < i ==> !IsSpecial(e, text[j])
      invariant result == Intended(e, text, start)
    {
      if IsSpecial(e, text[i]) {
        result := SpliceAt(e, text, result, start, i);
        start := i + 1;
      }
      i := i + 1;
    }
    r := SpliceRest(e, text, result, start);
  }

  /** The intended loop body at a special character `text[i]`. */
  method SpliceAt(e: Escaping, text: string, result: string, start: nat, i: nat) returns (r: string)
    requires start <= i < |text| && IsSpecial(e, text[i])
    requires forall j :: start <= j < i ==> !IsSpecial(e, text[j])
    requires result == Intended(e, text, start)
    ensures r == Intended(e, text, i + 1)
  {
    IntendedStep(e, text, start, i);
    r := result;
    if start == 0 {
      r := text[..i];
    } else if i > start {
      r := r + text[start..i];
    }
    r := r + Replacement(e, text[i]);
  }

  /** The intended return statement: the untouched tail is appended when something was spliced. */
  method SpliceRest(e: Escaping, text: string, result: string, start: nat) returns (r: string)
    requires start <= |text|
    requires forall j :: start <= j < |text| ==> !IsSpecial(e, text[j])
    requires result == Intended(e, text, start)
    ensures r == Escaped(e, text)
  {
    IntendedEnd(e, text, start);
    if start != 0 && |text| != start {
      r := result + text[start..|text|];
    } else {
      r := result;
    }
  }

  /** The intended `result` once the characters before `start` are consumed. */
  ghost function Intended(e: Escaping, text: string, start: nat): string
    requires start <= |text|
  {
    if start == 0 then text else EscapedTo(e, text, start)
  }

  /** One iteration of the intended loop at a special character `text[i]`. */
  lemma IntendedStep(e: Escaping, text: string, start: nat, i: nat)
    requires start <= i < |text| && IsSpecial(e, text[i])
    requires forall j :: start <= j < i ==> !IsSpecial(e, text[j])
    ensures Intended(e, text, i + 1) ==
      (if start == 0 then text[..i] else if i > start then Intended(e, text, start) + text[start..i]
       else Intended(e, text, start)) + Replacement(e, text[i])
  {
    RunCopied(e, text, start, i);
    if start == 0 {
      assert text[0..i] == text[..i];
    }
  }

  /** The return statement of the intended loop. */
  lemma IntendedEnd(e: Escaping, text: string, start: nat)
    requires start <= |text|
    requires forall j :: start <= j < |text| ==> !IsSpecial(e, text[j])
    ensures (if start != 0 && |text| != start then Intended(e, text, start) + text[start..|text|]
             else Intended(e, text, start)) == Escaped(e, text)
  {
    if start == 0 {
      NoSpecialUnchanged(e, text);
    } else {
      RunCopied(e, text, start, |text|);
      EscapedToPrefix(e, text, |text|);
      assert text[..|text|] == text;
    }
  }

  /**
    * The discrepancy, on one-character inputs: the source doubles a leading
    * special character instead of replacing it.
    */
  lemma LeadingSpecialRepeatsInput()
    ensures AsWritten(TextContent, "&") == "&&amp;" != Escaped(TextContent, "&")
    ensures AsWritten(AttributeValue, "\"x") == "\"x&quot;x" != Escaped(AttributeValue, "\"x")
  {
  }

  /** `escapeText`: element text, with `&`, `<`, `>` replaced. */
  method EscapeText(text: string) returns (r: string)
    ensures r == Escaped(TextContent, text)
    ensures forall i :: 0 <= i < |r| ==> r[i] != '<' && r[i] != '>'
    ensures NoSpecial(TextContent, text) ==> r == text
  {
    r := Splice(TextContent, text);
    EscapedIsSafe(TextContent, text);
    EscapedUnchangedIff(TextContent, text);
  }

  /** `escapeAttributeValue`: attribute and style values, with `"` and `&` replaced. */
  method EscapeAttributeValue(text: string) returns (r: string)
    ensures r == Escaped(AttributeValue, text)
    ensures forall i :: 0 <= i < |r| ==> r[i] != '"'
    ensures NoSpecial(AttributeValue, text) ==> r == text
  {
    r := Splice(AttributeValue, text);
    EscapedIsSafe(AttributeValue, text);
    EscapedUnchangedIff(AttributeValue, text);
  }
}
