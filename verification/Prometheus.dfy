/** The Prometheus text printer, its escapes, and a reader that inverts it. */
module Prometheus {
  import opened Wrappers

  // Escapes.

  /** Every occurrence of one character replaced. */
  function Replace(s: string, c: char, with: string): string {
    if s == "" then "" else (if s[0] == c then with else [s[0]]) + Replace(s[1..], c, with)
  }

  function EscapeHelp(s: string): string {
    Replace(Replace(s, '\\', "\\\\"), '\n', "\\n")
  }

  function EscapeLabel(s: string): string {
    Replace(Replace(Replace(s, '\\', "\\\\"), '\n', "\\n"), '\"', "\\\"")
  }

  /** One character's escape; quotes are escaped in label values only. */
  function Escaped(c: char, quotes: bool): string {
    if c == '\\' then "\\\\" else if c == '\n' then "\\n" else if quotes && c == '\"' then "\\\"" else [c]
  }

  function OnePass(s: string, quotes: bool): string {
    if s == "" then "" else Escaped(s[0], quotes) + OnePass(s[1..], quotes)
  }

  lemma Assoc<T>(a: seq<T>, b: seq<T>, c: seq<T>)
    ensures a + b + c == a + (b + c)
  {
  }

  /** The front and the rest of a concatenation. */
  lemma TailOfConcat<T>(s: seq<T>, t: seq<T>)
    requires s != []
    ensures (s + t)[0] == s[0] && (s + t)[1..] == s[1..] + t
  {
  }

  lemma {:induction false} ReplaceConcat(s: string, t: string, c: char, with: string)
    ensures Replace(s + t, c, with) == Replace(s, c, with) + Replace(t, c, with)
  {
    if s == "" {
      assert s + t == t;
    } else {
      ReplaceConcat(s[1..], t, c, with);
      TailOfConcat(s, t);
      Assoc(if s[0] == c then with else [s[0]], Replace(s[1..], c, with), Replace(t, c, with));
    }
  }

  lemma ReplaceOne(a: char, c: char, with: string)
    ensures Replace([a], c, with) == if a == c then with else [a]
  {
    assert [a][1..] == "";
  }

  lemma ReplaceTwo(a: char, b: char, c: char, with: string)
    requires a != c && b != c
    ensures Replace([a, b], c, with) == [a, b]
  {
    ReplaceOne(a, c, with);
    ReplaceOne(b, c, with);
    ReplaceConcat([a], [b], c, with);
    assert [a, b] == [a] + [b];
  }

  /** The two sequential replaces of help texts are one pass. */
  lemma {:induction false} HelpIsOnePass(s: string)
    ensures EscapeHelp(s) == OnePass(s, false)
  {
    if s != "" {
      hide Replace;
      var rest := Replace(s[1..], '\\', "\\\\");
      assert Replace(s, '\\', "\\\\") == (if s[0] == '\\' then "\\\\" else [s[0]]) + rest by {
        ReplaceOne(s[0], '\\', "\\\\");
        ReplaceConcat([s[0]], s[1..], '\\', "\\\\");
        assert s == [s[0]] + s[1..];
      }
      ReplaceConcat(if s[0] == '\\' then "\\\\" else [s[0]], rest, '\n', "\\n");
      ReplaceTwo('\\', '\\', '\n', "\\n");
      ReplaceOne(s[0], '\n', "\\n");
      HelpIsOnePass(s[1..]);
    } else {
      assert Replace("", '\\', "\\\\") == "" && Replace("", '\n', "\\n") == "";
    }
  }

  lemma {:induction false} QuotesInOnePass(s: string)
    ensures Replace(OnePass(s, false), '\"', "\\\"") == OnePass(s, true)
  {
    if s != "" {
      hide Replace;
      var head := Escaped(s[0], false);
      ReplaceConcat(head, OnePass(s[1..], false), '\"', "\\\"");
      ReplaceTwo('\\', '\\', '\"', "\\\"");
      ReplaceTwo('\\', 'n', '\"', "\\\"");
      ReplaceOne(s[0], '\"', "\\\"");
      QuotesInOnePass(s[1..]);
    } else {
      assert Replace("", '\"', "\\\"") == "";
    }
  }

  /** The three sequential replaces of label values are one pass. */
  lemma LabelIsOnePass(s: string)
    ensures EscapeLabel(s) == OnePass(s, true)
  {
    HelpIsOnePass(s);
    QuotesInOnePass(s);
  }

  /** No escaped text contains a raw newline. */
  lemma {:induction false} NoRawNewline(s: string, quotes: bool)
    ensures '\n' !in OnePass(s, quotes)
  {
    if s != "" {
      NoRawNewline(s[1..], quotes);
    }
  }

  /** Reads an escaped text up to the first unescaped `end`. */
  function ReadEscaped(s: string, end: char): (r: Option<(string, string)>)
    ensures r.Some? ==> |r.value.1| < |s|
  {
    if s == "" then None
    else if s[0] == end then Some(("", s[1..]))
    else if s[0] == '\\' then
      if |s| == 1 then None
      else
        var r := ReadEscaped(s[2..], end);
        if r.None? then None else Some(([if s[1] == 'n' then '\n' else s[1]] + r.value.0, r.value.1))
    else
      var r := ReadEscaped(s[1..], end);
      if r.None? then None else Some(([s[0]] + r.value.0, r.value.1))
  }

  /** The terminator of an escaped text. */
  function End(quotes: bool): char {
    if quotes then '\"' else '\n'
  }

  lemma ReadOne(c: char, more: string, quotes: bool)
    ensures ReadEscaped(Escaped(c, quotes) + more, End(quotes))
            == match ReadEscaped(more, End(quotes))
               case None => None
               case Some(r) => Some(([c] + r.0, r.1))
  {
    var s := Escaped(c, quotes) + more;
    if |Escaped(c, quotes)| == 1 {
      assert s[0] == c && s[1..] == more;
    } else {
      assert s[0] == '\\' && s[1] == Escaped(c, quotes)[1] && s[2..] == more;
    }
  }

  /** An escaped text followed by its terminator reads back as itself: the escape is injective and hides every terminator. */
  lemma {:induction false} ReadBack(s: string, rest: string, quotes: bool)
    ensures ReadEscaped(OnePass(s, quotes) + ([End(quotes)] + rest), End(quotes)) == Some((s, rest))
  {
    hide Escaped;
    var tail := [End(quotes)] + rest;
    if s == "" {
      assert OnePass(s, quotes) + tail == tail;
      assert tail[1..] == rest;
    } else {
      hide ReadEscaped;
      ReadBack(s[1..], rest, quotes);
      ReadOne(s[0], OnePass(s[1..], quotes) + tail, quotes);
      assert OnePass(s, quotes) + tail == Escaped(s[0], quotes) + (OnePass(s[1..], quotes) + tail);
      assert s == [s[0]] + s[1..];
    }
  }

  lemma EscapesAreInjective(a: string, b: string)
    ensures EscapeLabel(a) == EscapeLabel(b) ==> a == b
    ensures EscapeHelp(a) == EscapeHelp(b) ==> a == b
  {
    LabelIsOnePass(a);
    LabelIsOnePass(b);
    HelpIsOnePass(a);
    HelpIsOnePass(b);
    ReadBack(a, "", true);
    ReadBack(b, "", true);
    ReadBack(a, "", false);
    ReadBack(b, "", false);
    hide *;
  }

  /**
   The escapes go character by character: a backslash is doubled, a newline becomes `\n`, and in label
   values a quote gets a backslash; every other character stands for itself.
   */
  lemma EscapesAre(s: string, t: string, c: char)
    ensures EscapeHelp("") == "" && EscapeLabel("") == ""
    ensures EscapeHelp(s + t) == EscapeHelp(s) + EscapeHelp(t) && EscapeLabel(s + t) == EscapeLabel(s) + EscapeLabel(t)
    ensures EscapeHelp("\\") == EscapeLabel("\\") == ['\\', '\\']
    ensures EscapeHelp("\n") == EscapeLabel("\n") == ['\\', 'n']
    ensures EscapeLabel("\"") == ['\\', '\"']
    ensures c != '\\' && c != '\n' ==> EscapeHelp([c]) == [c]
    ensures c != '\\' && c != '\n' && c != '\"' ==> EscapeLabel([c]) == [c]
  {
    hide Replace;
    assert forall x: char, w: string :: Replace("", x, w) == "" by { NothingToReplace(); }
    ReplaceConcat(s, t, '\\', "\\\\");
    ReplaceConcat(Replace(s, '\\', "\\\\"), Replace(t, '\\', "\\\\"), '\n', "\\n");
    ReplaceConcat(EscapeHelp(s), EscapeHelp(t), '\"', "\\\"");
    EscapeOne('\\');
    EscapeOne('\n');
    EscapeOne('\"');
    EscapeOne(c);
  }

  lemma NothingToReplace()
    ensures forall c: char, w: string :: Replace("", c, w) == ""
  {
  }

  lemma EscapeOne(c: char)
    ensures EscapeHelp([c]) == Escaped(c, false) && EscapeLabel([c]) == Escaped(c, true)
  {
    HelpIsOnePass([c]);
    LabelIsOnePass([c]);
    OnePassOne(c, false);
    OnePassOne(c, true);
    hide *;
  }

  lemma OnePassOne(c: char, quotes: bool)
    ensures OnePass([c], quotes) == Escaped(c, quotes)
  {
    assert [c][1..] == "";
    assert Escaped(c, quotes) + "" == Escaped(c, quotes);
    hide Escaped;
  }

  // Names and items.

  predicate NameChar(c: char) {
    'a' <= c <= 'z' || 'A' <= c <= 'Z' || '0' <= c <= '9' || c == '_' || c == ':'
  }

  predicate Name(s: string) {
    s != "" && forall i :: 0 <= i < |s| ==> NameChar(s[i])
  }

  /** A formatted number. */
  predicate Token(s: string) {
    '\n' !in s
  }

  type Label = (string, string)

  /** What a scrape reads: one item per line. */
  datatype Item =
    | Help(name: string, text: string)
    | Type(name: string, kind: string)
    | Sample(name: string, labels: seq<Label>, value: string)

  predicate ValidItem(i: Item) {
    match i
    case Help(name, _) => Name(name)
    case Type(name, kind) => Name(name) && Token(kind)
    case Sample(name, labels, value) =>
      Name(name) && Token(value) && forall k :: 0 <= k < |labels| ==> Name(labels[k].0)
  }

  function LabelText(l: Label): string {
    l.0 + ("=\"" + (OnePass(l.1, true) + "\""))
  }

  function LabelsText(ls: seq<Label>): string {
    if |ls| == 0 then ""
    else if |ls| == 1 then LabelText(ls[0])
    else LabelText(ls[0]) + ("," + LabelsText(ls[1..]))
  }

  function LabelPart(ls: seq<Label>): string {
    if ls == [] then "" else "{" + (LabelsText(ls) + "}")
  }

  function ItemText(i: Item): string {
    match i
    case Help(name, text) => "# HELP " + (name + (" " + (OnePass(text, false) + "\n")))
    case Type(name, kind) => "# TYPE " + (name + (" " + (kind + "\n")))
    case Sample(name, labels, value) => name + (LabelPart(labels) + (" " + (value + "\n")))
  }

  function ItemsText(items: seq<Item>): string {
    if items == [] then "" else ItemText(items[0]) + ItemsText(items[1..])
  }

  /** One quoted label. */
  lemma LabelIs(l: Label)
    ensures LabelText(l) == l.0 + ("=\"" + (EscapeLabel(l.1) + "\""))
  {
    LabelIsOnePass(l.1);
    hide OnePass, EscapeLabel;
  }

  /** The labels of a sample: none at all, or in braces and separated by commas. */
  lemma {:induction false} LabelPartIs(ls: seq<Label>, l: Label)
    ensures LabelPart([]) == "" && LabelPart([l]) == "{" + (LabelText(l) + "}")
    ensures ls != [] ==> LabelsText([l] + ls) == LabelText(l) + ("," + LabelsText(ls))
    ensures ls != [] ==> LabelPart(ls) == "{" + (LabelsText(ls) + "}")
  {
    assert ([l] + ls)[1..] == ls;
    hide LabelText;
  }

  /** The lines of the text format, the comments by their keyword. */
  lemma LinesAre(name: string, text: string, labels: seq<Label>, value: string)
    ensures ItemText(Help(name, text)) == "# HELP " + (name + (" " + (EscapeHelp(text) + "\n")))
    ensures ItemText(Type(name, value)) == "# TYPE " + (name + (" " + (value + "\n")))
    ensures ItemText(Sample(name, labels, value)) == name + (LabelPart(labels) + (" " + (value + "\n")))
  {
    HelpIsOnePass(text);
    hide OnePass, EscapeHelp, LabelPart;
  }

  // The reader.

  /** The longest front of name characters, and the rest. */
  function Span(s: string): (r: (string, string))
    ensures s == r.0 + r.1
  {
    if s != "" && NameChar(s[0]) then
      var r := Span(s[1..]);
      ([s[0]] + r.0, r.1)
    else ("", s)
  }

  function Upto(s: string, end: char): (r: Option<(string, string)>)
    ensures r.Some? ==> |r.value.1| < |s|
  {
    if s == "" then None
    else if s[0] == end then Some(("", s[1..]))
    else
      var r := Upto(s[1..], end);
      if r.None? then None else Some(([s[0]] + r.value.0, r.value.1))
  }

  /** The rest after an expected front. */
  function Expect(s: string, front: string): (r: Option<string>)
    ensures r.Some? ==> s == front + r.value
  {
    if front <= s then Some(s[|front|..]) else None
  }

  /** One `key="value"`. */
  function ReadLabel(s: string): (r: Option<(Label, string)>)
    ensures r.Some? ==> |r.value.1| < |s|
  {
    var key := Span(s);
    var open := Expect(key.1, "=\"");
    if open.None? then None
    else
      var v := ReadEscaped(open.value, '\"');
      if v.None? then None else Some(((key.0, v.value.0), v.value.1))
  }

  /** Labels up to the closing brace. */
  function ReadLabels(s: string): (r: Option<(seq<Label>, string)>)
    ensures r.Some? ==> |r.value.1| < |s|
    decreases |s|
  {
    var l := ReadLabel(s);
    if l.None? || l.value.1 == "" then None
    else if l.value.1[0] == '}' then Some(([l.value.0], l.value.1[1..]))
    else if l.value.1[0] == ',' then
      var more := ReadLabels(l.value.1[1..]);
      if more.None? then None else Some(([l.value.0] + more.value.0, more.value.1))
    else None
  }

  function ReadLabelPart(s: string): (r: Option<(seq<Label>, string)>)
    ensures r.Some? ==> |r.value.1| <= |s|
  {
    if s != "" && s[0] == '{' then ReadLabels(s[1..]) else Some(([], s))
  }

  function ReadSample(s: string): (r: Option<(Item, string)>)
    ensures r.Some? ==> |r.value.1| < |s|
  {
    var name := Span(s);
    var ls := ReadLabelPart(name.1);
    if ls.None? then None
    else
      var rest := Expect(ls.value.1, " ");
      if rest.None? then None
      else
        var v := Upto(rest.value, '\n');
        if v.None? then None else Some((Sample(name.0, ls.value.0, v.value.0), v.value.1))
  }

  /** A comment line: a name, a space, and a text. */
  function ReadComment(s: string, help: bool): (r: Option<(Item, string)>)
    ensures r.Some? ==> |r.value.1| < |s|
  {
    var name := Span(s);
    var rest := Expect(name.1, " ");
    if rest.None? then None
    else if help then
      var t := ReadEscaped(rest.value, '\n');
      if t.None? then None else Some((Help(name.0, t.value.0), t.value.1))
    else
      var t := Upto(rest.value, '\n');
      if t.None? then None else Some((Type(name.0, t.value.0), t.value.1))
  }

  function ReadItem(s: string): (r: Option<(Item, string)>)
    ensures r.Some? ==> |r.value.1| < |s|
  {
    if Expect(s, "# HELP ").Some? then ReadComment(Expect(s, "# HELP ").value, true)
    else if Expect(s, "# TYPE ").Some? then ReadComment(Expect(s, "# TYPE ").value, false)
    else ReadSample(s)
  }

  function ReadItems(s: string): Option<seq<Item>>
    decreases |s|
  {
    if s == "" then Some([])
    else
      var i := ReadItem(s);
      if i.None? then None
      else
        var more := ReadItems(i.value.1);
        if more.None? then None else Some([i.value.0] + more.value)
  }

  lemma {:induction false} SpanName(name: string, rest: string)
    requires forall i :: 0 <= i < |name| ==> NameChar(name[i])
    requires rest == "" || !NameChar(rest[0])
    ensures Span(name + rest) == (name, rest)
  {
    hide NameChar;
    if name == "" {
      assert name + rest == rest;
    } else {
      SpanName(name[1..], rest);
      assert (name + rest)[1..] == name[1..] + rest;
      assert name == [name[0]] + name[1..];
    }
  }

  lemma {:induction false} UptoEnd(s: string, rest: string)
    requires '\n' !in s
    ensures Upto(s + ("\n" + rest), '\n') == Some((s, rest))
  {
    if s == "" {
      assert s + ("\n" + rest) == "\n" + rest;
      assert ("\n" + rest)[1..] == rest;
    } else {
      UptoEnd(s[1..], rest);
      assert (s + ("\n" + rest))[1..] == s[1..] + ("\n" + rest);
      assert s == [s[0]] + s[1..];
    }
  }

  lemma ExpectFront(front: string, rest: string)
    ensures Expect(front + rest, front) == Some(rest)
  {
    assert front <= front + rest && (front + rest)[|front|..] == rest;
  }

  lemma LabelReadsBack(l: Label, rest: string)
    requires Name(l.0)
    ensures ReadLabel(LabelText(l) + rest) == Some((l, rest))
  {
    hide OnePass, Span, ReadEscaped, Expect;
    var v := OnePass(l.1, true) + ("\"" + rest);
    assert LabelText(l) + rest == l.0 + ("=\"" + v);
    SpanName(l.0, "=\"" + v);
    ExpectFront("=\"", v);
    ReadBack(l.1, rest, true);
    assert ['\"'] + rest == "\"" + rest;
  }

  lemma {:induction false} LabelsReadBack(ls: seq<Label>, rest: string)
    requires ls != [] && forall k :: 0 <= k < |ls| ==> Name(ls[k].0)
    ensures ReadLabels(LabelsText(ls) + ("}" + rest)) == Some((ls, rest))
  {
    hide LabelText, ReadLabel, Name;
    var end := "}" + rest;
    if |ls| == 1 {
      LabelReadsBack(ls[0], end);
      assert end[1..] == rest && ls == [ls[0]];
    } else {
      var more := "," + (LabelsText(ls[1..]) + end);
      LabelReadsBack(ls[0], more);
      LabelsReadBack(ls[1..], rest);
      assert LabelsText(ls) + end == LabelText(ls[0]) + more;
      assert more[1..] == LabelsText(ls[1..]) + end;
      assert ls == [ls[0]] + ls[1..];
    }
  }

  lemma LabelPartReadsBack(ls: seq<Label>, rest: string)
    requires forall k :: 0 <= k < |ls| ==> Name(ls[k].0)
    requires rest != "" && rest[0] == ' '
    ensures ReadLabelPart(LabelPart(ls) + rest) == Some((ls, rest))
  {
    hide ReadLabels, LabelsText, Name;
    if ls == [] {
      assert LabelPart(ls) + rest == rest;
    } else {
      LabelsReadBack(ls, rest);
      var s := LabelPart(ls) + rest;
      assert s[1..] == LabelsText(ls) + ("}" + rest);
    }
  }

  lemma NoComment(name: string, rest: string)
    requires Name(name)
    ensures Expect(name + rest, "# HELP ").None? && Expect(name + rest, "# TYPE ").None?
  {
    var s := name + rest;
    assert s[0] == name[0] && NameChar(s[0]) && !NameChar('#');
  }

  lemma SampleReadsBack(name: string, labels: seq<Label>, value: string, rest: string)
    requires ValidItem(Sample(name, labels, value))
    ensures ReadSample(ItemText(Sample(name, labels, value)) + rest) == Some((Sample(name, labels, value), rest))
  {
    hide Span, ReadLabelPart, LabelPart, Expect, Upto;
    var t1 := value + ("\n" + rest);
    var t2 := " " + t1;
    var t3 := LabelPart(labels) + t2;
    assert ItemText(Sample(name, labels, value)) + rest == name + t3;
    LabelPartStart(labels, t2);
    SpanName(name, t3);
    LabelPartReadsBack(labels, t2);
    ExpectFront(" ", t1);
    UptoEnd(value, rest);
  }

  lemma LabelPartStart(ls: seq<Label>, rest: string)
    requires rest != "" && rest[0] == ' '
    ensures LabelPart(ls) + rest != "" && !NameChar((LabelPart(ls) + rest)[0])
  {
    hide LabelsText;
    if ls == [] {
      assert LabelPart(ls) + rest == rest;
    }
  }

  lemma CommentReadsBack(i: Item, rest: string)
    requires ValidItem(i) && !i.Sample?
    ensures var body := i.name + (" " + ((if i.Help? then OnePass(i.text, false) else i.kind) + ("\n" + rest)));
            ReadComment(body, i.Help?) == Some((i, rest))
  {
    hide Span, Expect, Upto, ReadEscaped, OnePass;
    var t := (if i.Help? then OnePass(i.text, false) else i.kind) + ("\n" + rest);
    SpanName(i.name, " " + t);
    ExpectFront(" ", t);
    if i.Help? {
      ReadBack(i.text, rest, false);
      assert ['\n'] + rest == "\n" + rest;
    } else {
      UptoEnd(i.kind, rest);
    }
  }

  lemma ItemReadsBack(i: Item, rest: string)
    requires ValidItem(i)
    ensures ReadItem(ItemText(i) + rest) == Some((i, rest))
  {
    hide ReadComment, ReadSample, OnePass, Expect, LabelPart, Name;
    match i
    case Help(name, text) =>
      var body := name + (" " + (OnePass(text, false) + ("\n" + rest)));
      assert ItemText(i) + rest == "# HELP " + body;
      ExpectFront("# HELP ", body);
      CommentReadsBack(i, rest);
    case Type(name, kind) =>
      var body := name + (" " + (kind + ("\n" + rest)));
      assert ItemText(i) + rest == "# TYPE " + body;
      ExpectFront("# TYPE ", body);
      NotHelp(body);
      CommentReadsBack(i, rest);
    case Sample(name, labels, value) =>
      var body := LabelPart(labels) + (" " + (value + ("\n" + rest)));
      assert ItemText(i) + rest == name + body;
      NoComment(name, body);
      SampleReadsBack(name, labels, value, rest);
  }

  lemma NotHelp(body: string)
    ensures Expect("# TYPE " + body, "# HELP ").None?
  {
    assert ("# TYPE " + body)[2] == 'T';
  }

  /** The printer is invertible: a printed list of items reads back as exactly those items. */
  lemma {:induction false} ItemsReadBack(items: seq<Item>)
    requires forall k :: 0 <= k < |items| ==> ValidItem(items[k])
    ensures ReadItems(ItemsText(items)) == Some(items)
  {
    hide ItemText, ReadItem, ValidItem;
    if items != [] {
      ItemsReadBack(items[1..]);
      ItemReadsBack(items[0], ItemsText(items[1..]));
      assert items == [items[0]] + items[1..];
      ItemNotEmpty(items[0], ItemsText(items[1..]));
    }
  }

  lemma ItemNotEmpty(i: Item, rest: string)
    requires ValidItem(i)
    ensures ItemText(i) + rest != ""
  {
    hide OnePass, LabelPart;
  }
}
