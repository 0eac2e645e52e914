/** Label lists of the metric exposition, and how a scraper reads them back. */
module Labels {
  import opened Basics

  /** `text.replace(c, with)` for a one-character `c`. */
  function Replace(text: string, c: char, with: string): string {
    if text == "" then ""
    else (if text[0] == c then with else [text[0]]) + Replace(text[1..], c, with)
  }

  /** The three chained replacements applied to a label value. */
  function PrometheusLabel(value: string): string {
    Replace(Replace(Replace(value, '\\', "\\\\"), '\n', "\\n"), '"', "\\\"")
  }

  function EscapeChar(c: char): string {
    if c == '\\' then "\\\\" else if c == '\n' then "\\n" else if c == '"' then "\\\"" else [c]
  }

  /** One pass over the value, each character escaped on its own. */
  function Escape(value: string): string {
    if value == "" then "" else EscapeChar(value[0]) + Escape(value[1..])
  }

  lemma {:induction false} ReplaceDistributes(s: string, t: string, c: char, with: string)
    ensures Replace(s + t, c, with) == Replace(s, c, with) + Replace(t, c, with)
  {
    if s == "" {
      assert s + t == t;
    } else {
      ReplaceDistributes(s[1..], t, c, with);
      assert (s + t)[1..] == s[1..] + t && (s + t)[0] == s[0];
      var head, tail, rest := if s[0] == c then with else [s[0]], Replace(s[1..], c, with), Replace(t, c, with);
      assert head + (tail + rest) == (head + tail) + rest;
    }
  }

  lemma {:induction false} ReplaceShort(s: string, c: char, with: string)
    ensures |s| == 1 ==> Replace(s, c, with) == if s[0] == c then with else s
    ensures |s| == 2 ==>
      Replace(s, c, with) == (if s[0] == c then with else [s[0]]) + if s[1] == c then with else [s[1]]
  {
    if |s| == 1 {
      assert s[1..] == "" && s == [s[0]];
    } else if |s| == 2 {
      assert s[1..] == [s[1]] && s[1..][1..] == "";
      assert Replace(s[1..], c, with) == (if s[1] == c then with else [s[1]]) + "";
    }
  }

  /** Backslash first, then line feed, then quote: no replacement touches what an earlier one wrote. */
  lemma {:induction false} ChainedReplacesEscape(value: string)
    ensures PrometheusLabel(value) == Escape(value)
  {
    if value != "" {
      ChainedReplacesEscape(value[1..]);
      var first := if value[0] == '\\' then "\\\\" else [value[0]];
      var rest := Replace(value[1..], '\\', "\\\\");
      ReplaceDistributes(first, rest, '\n', "\\n");
      ReplaceShort(first, '\n', "\\n");
      var second := Replace(first, '\n', "\\n");
      ReplaceDistributes(second, Replace(rest, '\n', "\\n"), '"', "\\\"");
      ReplaceShort(second, '"', "\\\"");
    }
  }

  datatype Label = Label(name: string, value: string)

  function EncodedLabel(l: Label): string {
    l.name + "=\"" + PrometheusLabel(l.value) + "\""
  }

  /** The labels joined by commas. */
  function EncodedLabels(labels: seq<Label>): string {
    if labels == [] then ""
    else if |labels| == 1 then EncodedLabel(labels[0])
    else EncodedLabel(labels[0]) + "," + EncodedLabels(labels[1..])
  }

  // ---- reading ----

  predicate NameChar(c: char) {
    'a' <= c <= 'z' || 'A' <= c <= 'Z' || '0' <= c <= '9' || c == '_'
  }

  predicate IsName(name: string) {
    name != "" && forall c :: c in name ==> NameChar(c)
  }

  /** The length of the name a text begins with. */
  function NameLength(text: string): (n: nat)
    ensures n <= |text|
  {
    if text == "" || !NameChar(text[0]) then 0 else 1 + NameLength(text[1..])
  }

  /** Reads a value up to the closing quote and returns it with the text after the quote. */
  function ParseValue(text: string): (r: Option<(string, string)>)
    ensures r.Some? ==> |r.value.1| < |text|
  {
    if text == "" then None
    else if text[0] == '"' then Some(("", text[1..]))
    else if text[0] == '\\' then
      if |text| == 1 then None
      else
        var unescaped := if text[1] == '\\' then Some('\\') else if text[1] == 'n' then Some('\n')
                         else if text[1] == '"' then Some('"') else None;
        var rest := ParseValue(text[2..]);
        if unescaped.None? || rest.None? then None else Some(([unescaped.value] + rest.value.0, rest.value.1))
    else if text[0] == '\n' then None
    else
      var rest := ParseValue(text[1..]);
      if rest.None? then None else Some(([text[0]] + rest.value.0, rest.value.1))
  }

  /** Reads a label list of the text exposition format; a list may be empty. */
  function ParseLabels(text: string): Option<seq<Label>>
    decreases |text|
  {
    if text == "" then Some([])
    else
      var n := NameLength(text);
      if n == 0 || |text| < n + 2 || text[n] != '=' || text[n + 1] != '"' then None
      else
        var value := ParseValue(text[n + 2..]);
        if value.None? then None
        else
          var read := Label(text[..n], value.value.0);
          var rest := value.value.1;
          if rest == "" then Some([read])
          else if rest[0] != ',' || rest == "," then None
          else
            var others := ParseLabels(rest[1..]);
            if others.None? then None else Some([read] + others.value)
  }

  lemma {:induction false} NameIsRead(name: string, rest: string)
    requires forall c :: c in name ==> NameChar(c)
    requires rest != "" && !NameChar(rest[0])
    ensures NameLength(name + rest) == |name|
  {
    if name == "" {
      assert name + rest == rest;
    } else {
      assert name[0] in name;
      NameIsRead(name[1..], rest);
      assert (name + rest)[1..] == name[1..] + rest;
    }
  }

  lemma {:induction false} ValueIsRead(value: string, rest: string)
    ensures ParseValue(Escape(value) + "\"" + rest) == Some((value, rest))
  {
    if value == "" {
      assert Escape(value) + "\"" + rest == "\"" + rest;
      assert ("\"" + rest)[1..] == rest;
    } else {
      ValueIsRead(value[1..], rest);
      var tail := Escape(value[1..]) + "\"" + rest;
      CharIsRead(value[0], tail, value[1..], rest);
      assert Escape(value) + "\"" + rest == EscapeChar(value[0]) + tail;
      assert value == [value[0]] + value[1..];
    }
  }

  lemma {:induction false} CharIsRead(c: char, tail: string, value: string, rest: string)
    requires ParseValue(tail) == Some((value, rest))
    ensures ParseValue(EscapeChar(c) + tail) == Some(([c] + value, rest))
  {
    var e := EscapeChar(c);
    assert (e + tail)[|e|..] == tail;
  }

  /** After the name comes the quoted value, and what follows is left for the rest of the list. */
  lemma NameIsFound(l: Label, rest: string)
    requires IsName(l.name)
    ensures var text := EncodedLabel(l) + rest; var n := |l.name|;
            && NameLength(text) == n && |text| >= n + 2 && text[..n] == l.name && text[n] == '=' && text[n + 1] == '"'
            && text[n + 2..] == PrometheusLabel(l.value) + "\"" + rest
  {
    var n, body := |l.name|, "=\"" + PrometheusLabel(l.value) + "\"" + rest;
    var text := EncodedLabel(l) + rest;
    assert text == l.name + body;
    NameIsRead(l.name, body);
    assert text[n + 2..] == body[2..];
  }

  /** A label at the head of a list is read, and the reading goes on after it. */
  lemma {:induction false} LabelIsRead(l: Label, rest: string)
    requires IsName(l.name)
    ensures ParseLabels(EncodedLabel(l) + rest) ==
            if rest == "" then Some([l])
            else if rest[0] != ',' || rest == "," then None
            else if ParseLabels(rest[1..]).None? then None
            else Some([l] + ParseLabels(rest[1..]).value)
  {
    NameIsFound(l, rest);
    ChainedReplacesEscape(l.value);
    ValueIsRead(l.value, rest);
  }

  /** For all values, reading an encoded label list gives back the names and values. */
  lemma {:induction false} EncodedLabelsAreRead(labels: seq<Label>)
    requires forall l :: l in labels ==> IsName(l.name)
    ensures ParseLabels(EncodedLabels(labels)) == Some(labels)
  {
    if labels != [] {
      var l := labels[0];
      if |labels| == 1 {
        LabelIsRead(l, "");
        assert EncodedLabel(l) + "" == EncodedLabels(labels);
        assert labels == [l];
      } else {
        var others := EncodedLabels(labels[1..]);
        EncodedLabelsAreRead(labels[1..]);
        EncodingIsNotEmpty(labels[1..]);
        LabelIsRead(l, "," + others);
        assert EncodedLabel(l) + ("," + others) == EncodedLabels(labels);
        assert ("," + others)[1..] == others;
        assert labels == [l] + labels[1..];
      }
    }
  }

  lemma {:induction false} EncodingIsNotEmpty(labels: seq<Label>)
    requires labels != []
    ensures EncodedLabels(labels) != ""
  {
    assert |EncodedLabel(labels[0])| > 0;
  }
}
