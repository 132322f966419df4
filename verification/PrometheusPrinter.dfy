/** The metrics store's printer, appending to one string as the source does, and what a scrape recovers. */
module PrometheusPrinter {
  import opened Wrappers
  import opened Prometheus

  datatype MetricKey = MetricKey(name: string, labels: seq<Label>)

  datatype Description = Description(name: string, kind: string, unit: Option<string>, text: string)

  datatype Histogram = Histogram(count: string, sum: string)

  /** The store's four ordered maps, as their entries in key order; numbers as formatted. */
  datatype Store = Store(
    descriptions: seq<Description>,
    counters: seq<(MetricKey, string)>,
    gauges: seq<(MetricKey, string)>,
    histograms: seq<(MetricKey, Histogram)>)

  function UnitText(unit: Option<string>): string {
    if unit.Some? then " (" + (unit.value + ")") else ""
  }

  function DescriptionItems(d: Description): seq<Item> {
    [Help(d.name, d.text + UnitText(d.unit)), Type(d.name, d.kind)]
  }

  function SampleItem(key: MetricKey, suffix: string, value: string): Item {
    Sample(key.name + suffix, key.labels, value)
  }

  function HistogramItems(key: MetricKey, h: Histogram): seq<Item> {
    [Sample(key.name + "_bucket", key.labels + [("le", "+Inf")], h.count),
     SampleItem(key, "_sum", h.sum),
     SampleItem(key, "_count", h.count)]
  }

  function DescriptionsItems(ds: seq<Description>): seq<Item> {
    if ds == [] then [] else DescriptionsItems(ds[..|ds| - 1]) + DescriptionItems(ds[|ds| - 1])
  }

  function ValuesItems(vs: seq<(MetricKey, string)>): seq<Item> {
    if vs == [] then [] else ValuesItems(vs[..|vs| - 1]) + [SampleItem(vs[|vs| - 1].0, "", vs[|vs| - 1].1)]
  }

  function HistogramsItems(hs: seq<(MetricKey, Histogram)>): seq<Item> {
    if hs == [] then [] else HistogramsItems(hs[..|hs| - 1]) + HistogramItems(hs[|hs| - 1].0, hs[|hs| - 1].1)
  }

  /** What the store says, in the order it is printed. */
  function StoreItems(s: Store): seq<Item> {
    DescriptionsItems(s.descriptions) + (ValuesItems(s.counters) + (ValuesItems(s.gauges) + HistogramsItems(s.histograms)))
  }

  lemma {:induction false} ItemsTextConcat(a: seq<Item>, b: seq<Item>)
    ensures ItemsText(a + b) == ItemsText(a) + ItemsText(b)
  {
    hide ItemText;
    if a == [] {
      assert a + b == b;
    } else {
      ItemsTextConcat(a[1..], b);
      TailOfConcat(a, b);
      Assoc(ItemText(a[0]), ItemsText(a[1..]), ItemsText(b));
    }
  }

  lemma ItemsTextOne(i: Item)
    ensures ItemsText([i]) == ItemText(i)
  {
    hide ItemText;
    assert [i][1..] == [];
  }

  lemma {:induction false} LabelsTextSnoc(ls: seq<Label>, l: Label)
    ensures LabelsText(ls + [l]) == LabelsText(ls) + ((if ls == [] then "" else ",") + LabelText(l))
  {
    hide LabelText;
    if |ls| == 0 {
      assert ls + [l] == [l];
    } else {
      LabelsTextSnoc(ls[1..], l);
      assert (ls + [l])[1..] == ls[1..] + [l];
    }
  }

  lemma {:induction false} OnePassConcat(s: string, t: string, quotes: bool)
    ensures OnePass(s + t, quotes) == OnePass(s, quotes) + OnePass(t, quotes)
  {
    hide Escaped;
    if s == "" {
      assert s + t == t;
    } else {
      OnePassConcat(s[1..], t, quotes);
      TailOfConcat(s, t);
      Assoc(Escaped(s[0], quotes), OnePass(s[1..], quotes), OnePass(t, quotes));
    }
  }

  lemma {:induction false} NothingToEscape(s: string, quotes: bool)
    requires forall k :: 0 <= k < |s| ==> s[k] != '\\' && s[k] != '\n' && s[k] != '\"'
    ensures OnePass(s, quotes) == s
  {
    if s != "" {
      NothingToEscape(s[1..], quotes);
      assert s == [s[0]] + s[1..];
    }
  }

  /** The string the source appends to. */
  class TextBuffer {
    var text: string

    constructor ()
      ensures text == ""
    {
      text := "";
    }

    method Push(s: string)
      modifies this
      ensures text == old(text) + s
    {
      text := text + s;
    }
  }

  lemma Join3(t: string, a: string, b: string, c: string)
    ensures t + a + b + c == t + (a + (b + c))
  {
    Assoc(t + a, b, c);
    Assoc(t, a, b + c);
  }

  lemma Join4(t: string, a: string, b: string, c: string, d: string)
    ensures t + a + b + c + d == t + (a + (b + (c + d)))
  {
    Join3(t + a, b, c, d);
    Assoc(t, a, b + (c + d));
  }

  lemma Join5(t: string, a: string, b: string, c: string, d: string, e: string)
    ensures t + a + b + c + d + e == t + (a + (b + (c + (d + e))))
  {
    Join4(t + a, b, c, d, e);
    Assoc(t, a, b + (c + (d + e)));
  }

  method RenderLabel(out: TextBuffer, l: Label)
    modifies out
    ensures out.text == old(out.text) + LabelText(l)
  {
    LabelIsOnePass(l.1);
    hide OnePass, EscapeLabel;
    Join4(out.text, l.0, "=\"", EscapeLabel(l.1), "\"");
    out.Push(l.0);
    out.Push("=\"");
    out.Push(EscapeLabel(l.1));
    out.Push("\"");
  }

  /** Labels separated by commas. */
  method RenderLabels(out: TextBuffer, labels: seq<Label>)
    modifies out
    ensures out.text == old(out.text) + LabelsText(labels)
  {
    hide LabelText, LabelsText;
    assert LabelsText([]) == "" by { NoLabelsNoText(); }
    for idx := 0 to |labels|
      invariant out.text == old(out.text) + LabelsText(labels[..idx])
    {
      var sep := if idx == 0 then "" else ",";
      LabelsTextSnoc(labels[..idx], labels[idx]);
      assert labels[..idx + 1] == labels[..idx] + [labels[idx]];
      Join3(old(out.text), LabelsText(labels[..idx]), sep, LabelText(labels[idx]));
      if idx > 0 {
        out.Push(",");
      }
      assert out.text == old(out.text) + LabelsText(labels[..idx]) + sep;
      RenderLabel(out, labels[idx]);
    }
    assert labels[..|labels|] == labels;
  }

  lemma NoLabelsNoText()
    ensures LabelsText([]) == ""
  {
  }

  /** A space, the value, and the end of the line. */
  method RenderValue(out: TextBuffer, value: string)
    modifies out
    ensures out.text == old(out.text) + (" " + (value + "\n"))
  {
    Join3(out.text, " ", value, "\n");
    out.Push(" ");
    out.Push(value);
    out.Push("\n");
  }

  method RenderSample(out: TextBuffer, key: MetricKey, suffix: string, value: string)
    modifies out
    ensures out.text == old(out.text) + ItemText(SampleItem(key, suffix, value))
  {
    hide LabelsText;
    ghost var end := " " + (value + "\n");
    Assoc(out.text, key.name, suffix);
    ghost var t := out.text + (key.name + suffix);
    Join3(t, "{", LabelsText(key.labels), "}");
    Join3(out.text, key.name + suffix, LabelPart(key.labels), end);
    out.Push(key.name);
    out.Push(suffix);
    if key.labels != [] {
      out.Push("{");
      RenderLabels(out, key.labels);
      out.Push("}");
    }
    assert out.text == t + LabelPart(key.labels);
    hide LabelPart;
    RenderValue(out, value);
  }

  /** A sample with one more label after the key's own. */
  method RenderSampleWithExtraLabel(out: TextBuffer, key: MetricKey, suffix: string, extra: Label, value: string)
    modifies out
    ensures out.text == old(out.text) + ItemText(Sample(key.name + suffix, key.labels + [extra], value))
  {
    hide LabelText, LabelsText;
    ghost var labels, end := key.labels + [extra], " " + (value + "\n");
    ghost var sep := if key.labels == [] then "" else ",";
    LabelsTextSnoc(key.labels, extra);
    Assoc(out.text, key.name, suffix);
    ghost var t := out.text + (key.name + suffix);
    Join3(t + "{", LabelsText(key.labels), sep, LabelText(extra));
    Join3(t, "{", LabelsText(labels), "}");
    Join3(out.text, key.name + suffix, LabelPart(labels), end);
    out.Push(key.name);
    out.Push(suffix);
    out.Push("{");
    RenderLabels(out, key.labels);
    if key.labels != [] {
      out.Push(",");
    }
    assert out.text == t + "{" + LabelsText(key.labels) + sep;
    RenderLabel(out, extra);
    out.Push("}");
    assert out.text == t + LabelPart(labels);
    hide LabelPart;
    RenderValue(out, value);
  }

  /** A unit prints as a word: it is one of an enumeration. */
  predicate UnitIsWord(d: Description) {
    d.unit.Some? ==> Name(d.unit.value)
  }

  /** The unit needs no escaping, so it can be appended after the escaped text. */
  lemma HelpLine(d: Description)
    requires UnitIsWord(d)
    ensures OnePass(d.text + UnitText(d.unit), false) == EscapeHelp(d.text) + UnitText(d.unit)
  {
    OnePassConcat(d.text, UnitText(d.unit), false);
    HelpIsOnePass(d.text);
    UnitPlain(d.unit);
    hide OnePass, EscapeHelp, UnitText;
  }

  lemma UnitPlain(unit: Option<string>)
    requires unit.Some? ==> Name(unit.value)
    ensures OnePass(UnitText(unit), false) == UnitText(unit)
  {
    NothingToEscape(UnitText(unit), false);
    hide OnePass;
  }

  method RenderHelp(out: TextBuffer, d: Description)
    requires UnitIsWord(d)
    modifies out
    ensures out.text == old(out.text) + ItemText(Help(d.name, d.text + UnitText(d.unit)))
  {
    HelpLine(d);
    hide OnePass, EscapeHelp, UnitIsWord;
    ghost var t := out.text + "# HELP " + d.name + " " + EscapeHelp(d.text);
    if d.unit.Some? { Join3(t, " (", d.unit.value, ")"); }
    Assoc(out.text + "# HELP " + d.name + " ", EscapeHelp(d.text), UnitText(d.unit));
    Join5(out.text, "# HELP ", d.name, " ", EscapeHelp(d.text) + UnitText(d.unit), "\n");
    out.Push("# HELP ");
    out.Push(d.name);
    out.Push(" ");
    out.Push(EscapeHelp(d.text));
    if d.unit.Some? {
      out.Push(" (");
      out.Push(d.unit.value);
      out.Push(")");
    }
    assert out.text == t + UnitText(d.unit);
    hide UnitText;
    out.Push("\n");
  }

  method RenderType(out: TextBuffer, d: Description)
    modifies out
    ensures out.text == old(out.text) + ItemText(Type(d.name, d.kind))
  {
    Join5(out.text, "# TYPE ", d.name, " ", d.kind, "\n");
    out.Push("# TYPE ");
    out.Push(d.name);
    out.Push(" ");
    out.Push(d.kind);
    out.Push("\n");
  }

  method RenderDescription(out: TextBuffer, d: Description)
    requires UnitIsWord(d)
    modifies out
    ensures out.text == old(out.text) + ItemsText(DescriptionItems(d))
  {
    var help, kind := Help(d.name, d.text + UnitText(d.unit)), Type(d.name, d.kind);
    ItemsTextConcat([help], [kind]);
    ItemsTextOne(help);
    ItemsTextOne(kind);
    assert [help] + [kind] == DescriptionItems(d);
    hide ItemsText, ItemText, UnitText, UnitIsWord;
    Assoc(out.text, ItemText(help), ItemText(kind));
    RenderHelp(out, d);
    RenderType(out, d);
  }

  method RenderHistogram(out: TextBuffer, key: MetricKey, h: Histogram)
    modifies out
    ensures out.text == old(out.text) + ItemsText(HistogramItems(key, h))
  {
    hide ItemText;
    ghost var items := HistogramItems(key, h);
    ItemsTextConcat(items[..1], items[1..2]);
    ItemsTextConcat(items[..2], items[2..]);
    ItemsTextOne(items[0]);
    ItemsTextOne(items[1]);
    ItemsTextOne(items[2]);
    assert items[..1] == [items[0]] && items[1..2] == [items[1]] && items[2..] == [items[2]];
    assert items[..1] + items[1..2] == items[..2] && items[..2] + items[2..] == items;
    hide ItemsText;
    RenderSampleWithExtraLabel(out, key, "_bucket", ("le", "+Inf"), h.count);
    RenderSample(out, key, "_sum", h.sum);
    RenderSample(out, key, "_count", h.count);
  }

  method RenderValues(out: TextBuffer, values: seq<(MetricKey, string)>)
    modifies out
    ensures out.text == old(out.text) + ItemsText(ValuesItems(values))
  {
    hide ItemText;
    for i := 0 to |values|
      invariant out.text == old(out.text) + ItemsText(ValuesItems(values[..i]))
    {
      var item := SampleItem(values[i].0, "", values[i].1);
      ItemsTextConcat(ValuesItems(values[..i]), [item]);
      ItemsTextOne(item);
      assert values[..i + 1][..i] == values[..i];
      RenderSample(out, values[i].0, "", values[i].1);
    }
    assert values[..|values|] == values;
  }

  method RenderDescriptions(out: TextBuffer, ds: seq<Description>)
    requires forall k :: 0 <= k < |ds| ==> UnitIsWord(ds[k])
    modifies out
    ensures out.text == old(out.text) + ItemsText(DescriptionsItems(ds))
  {
    hide ItemsText, DescriptionItems;
    assert ItemsText([]) == "" by { EmptyText(); }
    for i := 0 to |ds|
      invariant out.text == old(out.text) + ItemsText(DescriptionsItems(ds[..i]))
    {
      ItemsTextConcat(DescriptionsItems(ds[..i]), DescriptionItems(ds[i]));
      Assoc(old(out.text), ItemsText(DescriptionsItems(ds[..i])), ItemsText(DescriptionItems(ds[i])));
      assert ds[..i + 1][..i] == ds[..i];
      RenderDescription(out, ds[i]);
    }
    assert ds[..|ds|] == ds;
  }

  method RenderHistograms(out: TextBuffer, hs: seq<(MetricKey, Histogram)>)
    modifies out
    ensures out.text == old(out.text) + ItemsText(HistogramsItems(hs))
  {
    hide ItemsText, HistogramItems;
    assert ItemsText([]) == "" by { EmptyText(); }
    for i := 0 to |hs|
      invariant out.text == old(out.text) + ItemsText(HistogramsItems(hs[..i]))
    {
      ItemsTextConcat(HistogramsItems(hs[..i]), HistogramItems(hs[i].0, hs[i].1));
      Assoc(old(out.text), ItemsText(HistogramsItems(hs[..i])), ItemsText(HistogramItems(hs[i].0, hs[i].1)));
      assert hs[..i + 1][..i] == hs[..i];
      RenderHistogram(out, hs[i].0, hs[i].1);
    }
    assert hs[..|hs|] == hs;
  }

  /** The whole body: descriptions, then counters, gauges and histograms. */
  method RenderPrometheus(s: Store) returns (body: string)
    requires forall k :: 0 <= k < |s.descriptions| ==> UnitIsWord(s.descriptions[k])
    ensures body == ItemsText(StoreItems(s))
  {
    hide ItemsText, DescriptionsItems, HistogramsItems, ValuesItems;
    ItemsTextConcat(ValuesItems(s.gauges), HistogramsItems(s.histograms));
    ItemsTextConcat(ValuesItems(s.counters), ValuesItems(s.gauges) + HistogramsItems(s.histograms));
    ItemsTextConcat(DescriptionsItems(s.descriptions), ValuesItems(s.counters) + (ValuesItems(s.gauges) + HistogramsItems(s.histograms)));
    Join4("", ItemsText(DescriptionsItems(s.descriptions)), ItemsText(ValuesItems(s.counters)), ItemsText(ValuesItems(s.gauges)),
          ItemsText(HistogramsItems(s.histograms)));
    var out := new TextBuffer();
    RenderDescriptions(out, s.descriptions);
    RenderValues(out, s.counters);
    RenderValues(out, s.gauges);
    RenderHistograms(out, s.histograms);
    body := out.text;
  }

  lemma EmptyText()
    ensures ItemsText([]) == ""
  {
  }

  predicate ValidDescription(d: Description) {
    Name(d.name) && Token(d.kind) && UnitIsWord(d)
  }

  predicate ValidKey(key: MetricKey) {
    Name(key.name) && forall k :: 0 <= k < |key.labels| ==> Name(key.labels[k].0)
  }

  /** Names are metric and label names; label values and help texts are anything. */
  predicate ValidStore(s: Store) {
    && (forall k :: 0 <= k < |s.descriptions| ==> ValidDescription(s.descriptions[k]))
    && (forall k :: 0 <= k < |s.counters| ==> ValidKey(s.counters[k].0) && Token(s.counters[k].1))
    && (forall k :: 0 <= k < |s.gauges| ==> ValidKey(s.gauges[k].0) && Token(s.gauges[k].1))
    && (forall k :: 0 <= k < |s.histograms| ==>
          ValidKey(s.histograms[k].0) && Token(s.histograms[k].1.count) && Token(s.histograms[k].1.sum))
  }

  predicate AllValid(items: seq<Item>) {
    forall k :: 0 <= k < |items| ==> ValidItem(items[k])
  }

  lemma SuffixedName(name: string, suffix: string)
    requires Name(name) && forall k :: 0 <= k < |suffix| ==> NameChar(suffix[k])
    ensures Name(name + suffix)
  {
  }

  lemma SampleItemValid(key: MetricKey, suffix: string, value: string)
    requires ValidKey(key) && Token(value) && forall k :: 0 <= k < |suffix| ==> NameChar(suffix[k])
    ensures ValidItem(SampleItem(key, suffix, value))
  {
    hide NameChar;
    SuffixedName(key.name, suffix);
    hide Name;
  }

  lemma HistogramItemsValid(key: MetricKey, h: Histogram)
    requires ValidKey(key) && Token(h.count) && Token(h.sum)
    ensures AllValid(HistogramItems(key, h))
  {
    SampleItemValid(key, "_sum", h.sum);
    SampleItemValid(key, "_count", h.count);
    SuffixedName(key.name, "_bucket");
    assert Name("le");
    hide Name, Token, NameChar;
  }

  lemma {:induction false} ValuesValid(vs: seq<(MetricKey, string)>)
    requires forall k :: 0 <= k < |vs| ==> ValidKey(vs[k].0) && Token(vs[k].1)
    ensures AllValid(ValuesItems(vs))
  {
    hide ValidKey, Token, ValidItem;
    if vs != [] {
      ValuesValid(vs[..|vs| - 1]);
      SampleItemValid(vs[|vs| - 1].0, "", vs[|vs| - 1].1);
    }
  }

  lemma {:induction false} DescriptionsValid(ds: seq<Description>)
    requires forall k :: 0 <= k < |ds| ==> ValidDescription(ds[k])
    ensures AllValid(DescriptionsItems(ds))
  {
    if ds != [] {
      DescriptionsValid(ds[..|ds| - 1]);
      assert ValidDescription(ds[|ds| - 1]);
      hide Name, Token;
    }
  }

  lemma {:induction false} HistogramsValid(hs: seq<(MetricKey, Histogram)>)
    requires forall k :: 0 <= k < |hs| ==> ValidKey(hs[k].0) && Token(hs[k].1.count) && Token(hs[k].1.sum)
    ensures AllValid(HistogramsItems(hs))
  {
    hide ValidKey, Token, ValidItem, HistogramItems;
    if hs != [] {
      HistogramsValid(hs[..|hs| - 1]);
      HistogramItemsValid(hs[|hs| - 1].0, hs[|hs| - 1].1);
    }
  }

  /** A scrape of any store recovers every name, label, value and text, however they are spelled. */
  lemma ScrapeRecoversStore(s: Store)
    requires ValidStore(s)
    ensures ReadItems(ItemsText(StoreItems(s))) == Some(StoreItems(s))
  {
    hide ReadItems, ItemsText, ValidItem, DescriptionsItems, ValuesItems, HistogramsItems;
    DescriptionsValid(s.descriptions);
    ValuesValid(s.counters);
    ValuesValid(s.gauges);
    HistogramsValid(s.histograms);
    ItemsReadBack(StoreItems(s));
  }

  /** A description's text, and its unit in brackets. */
  lemma DescriptionSays(d: Description)
    ensures |DescriptionItems(d)| == 2 && DescriptionItems(d)[1] == Type(d.name, d.kind)
    ensures DescriptionItems(d)[0] == Help(d.name, d.text + if d.unit.Some? then " (" + (d.unit.value + ")") else "")
  {
  }

  lemma {:induction false} DescriptionsSay(ds: seq<Description>, k: nat)
    requires k < |ds|
    ensures |DescriptionsItems(ds)| == 2 * |ds|
    ensures DescriptionsItems(ds)[2 * k] == DescriptionItems(ds[k])[0]
    ensures DescriptionsItems(ds)[2 * k + 1] == DescriptionItems(ds[k])[1]
  {
    var n := |ds| - 1;
    DescriptionsCount(ds[..n]);
    DescriptionSays(ds[n]);
    hide DescriptionItems;
    if k < n {
      DescriptionsSay(ds[..n], k);
    }
  }

  lemma {:induction false} DescriptionsCount(ds: seq<Description>)
    ensures |DescriptionsItems(ds)| == 2 * |ds|
  {
    if ds != [] {
      DescriptionsCount(ds[..|ds| - 1]);
    }
  }

  lemma {:induction false} ValuesSay(vs: seq<(MetricKey, string)>)
    ensures |ValuesItems(vs)| == |vs|
    ensures forall k :: 0 <= k < |vs| ==> ValuesItems(vs)[k] == Sample(vs[k].0.name, vs[k].0.labels, vs[k].1)
  {
    if vs != [] {
      ValuesSay(vs[..|vs| - 1]);
      assert vs[|vs| - 1].0.name + "" == vs[|vs| - 1].0.name;
    }
  }

  lemma {:induction false} HistogramsSay(hs: seq<(MetricKey, Histogram)>)
    ensures |HistogramsItems(hs)| == 3 * |hs|
    ensures forall k :: 0 <= k < |hs| ==>
              && HistogramsItems(hs)[3 * k] == Sample(hs[k].0.name + "_bucket", hs[k].0.labels + [("le", "+Inf")], hs[k].1.count)
              && HistogramsItems(hs)[3 * k + 1] == Sample(hs[k].0.name + "_sum", hs[k].0.labels, hs[k].1.sum)
              && HistogramsItems(hs)[3 * k + 2] == Sample(hs[k].0.name + "_count", hs[k].0.labels, hs[k].1.count)
  {
    if hs != [] {
      HistogramsSay(hs[..|hs| - 1]);
    }
  }

  /** The four parts of a scrape, in order. */
  predicate Parts(items: seq<Item>, ds: seq<Item>, cs: seq<Item>, gs: seq<Item>, hs: seq<Item>) {
    items == ds + (cs + (gs + hs))
  }

  /**
   What a scrape of a store reads is the store: for each description its text, with the unit in
   brackets, and its kind; each counter and each gauge under its own name, labels and value; and for
   each histogram the count in the `+Inf` bucket, the sum as `_sum` and the count as `_count`.
   */
  lemma ScrapeSaysStore(s: Store) returns (ds: seq<Item>, cs: seq<Item>, gs: seq<Item>, hs: seq<Item>)
    requires ValidStore(s)
    ensures ReadItems(ItemsText(StoreItems(s))).Some? && Parts(ReadItems(ItemsText(StoreItems(s))).value, ds, cs, gs, hs)
    ensures |ds| == 2 * |s.descriptions| && |cs| == |s.counters| && |gs| == |s.gauges| && |hs| == 3 * |s.histograms|
    ensures forall k :: 0 <= k < |s.descriptions| ==>
              && ds[2 * k] == Help(s.descriptions[k].name,
                                   s.descriptions[k].text
                                   + if s.descriptions[k].unit.Some? then " (" + (s.descriptions[k].unit.value + ")") else "")
              && ds[2 * k + 1] == Type(s.descriptions[k].name, s.descriptions[k].kind)
    ensures forall k :: 0 <= k < |s.counters| ==>
              cs[k] == Sample(s.counters[k].0.name, s.counters[k].0.labels, s.counters[k].1)
    ensures forall k :: 0 <= k < |s.gauges| ==> gs[k] == Sample(s.gauges[k].0.name, s.gauges[k].0.labels, s.gauges[k].1)
    ensures forall k :: 0 <= k < |s.histograms| ==>
              var key, h := s.histograms[k].0, s.histograms[k].1;
              && hs[3 * k] == Sample(key.name + "_bucket", key.labels + [("le", "+Inf")], h.count)
              && hs[3 * k + 1] == Sample(key.name + "_sum", key.labels, h.sum)
              && hs[3 * k + 2] == Sample(key.name + "_count", key.labels, h.count)
  {
    ScrapeRecoversStore(s);
    hide ReadItems, ItemsText, ValidStore, DescriptionsItems, ValuesItems, HistogramsItems;
    ds, cs := DescriptionsItems(s.descriptions), ValuesItems(s.counters);
    gs, hs := ValuesItems(s.gauges), HistogramsItems(s.histograms);
    DescriptionsCount(s.descriptions);
    forall k | 0 <= k < |s.descriptions|
      ensures ds[2 * k] == Help(s.descriptions[k].name,
                                s.descriptions[k].text
                                + if s.descriptions[k].unit.Some? then " (" + (s.descriptions[k].unit.value + ")") else "")
              && ds[2 * k + 1] == Type(s.descriptions[k].name, s.descriptions[k].kind)
    {
      DescriptionsSay(s.descriptions, k);
      DescriptionSays(s.descriptions[k]);
    }
    hide DescriptionItems;
    ValuesSay(s.counters);
    ValuesSay(s.gauges);
    HistogramsSay(s.histograms);
  }

  /** Two descriptions print alike exactly when name, kind, and text and unit run together agree. */
  lemma PrintAlikeIff(d: Description, e: Description)
    requires ValidDescription(d) && ValidDescription(e)
    ensures ItemsText(DescriptionItems(d)) == ItemsText(DescriptionItems(e))
            <==> d.name == e.name && d.kind == e.kind && d.text + UnitText(d.unit) == e.text + UnitText(e.unit)
  {
    ItemsReadBack(DescriptionItems(d));
    ItemsReadBack(DescriptionItems(e));
    SameItemsIff(d, e);
    hide *;
  }

  lemma SameItemsIff(d: Description, e: Description)
    ensures DescriptionItems(d) == DescriptionItems(e)
            <==> d.name == e.name && d.kind == e.kind && d.text + UnitText(d.unit) == e.text + UnitText(e.unit)
  {
    hide UnitText;
    if DescriptionItems(d) == DescriptionItems(e) {
      assert DescriptionItems(d)[0] == DescriptionItems(e)[0] && DescriptionItems(d)[1] == DescriptionItems(e)[1];
    }
  }

  /** So a unit is not told from a text that ends like one. */
  lemma UnitIsAmbiguous(name: string, kind: string, text: string, unit: string)
    requires Name(name) && Token(kind) && Name(unit)
    ensures ItemsText(DescriptionItems(Description(name, kind, Some(unit), text)))
            == ItemsText(DescriptionItems(Description(name, kind, None, text + (" (" + (unit + ")")))))
  {
    var plain := text + (" (" + (unit + ")"));
    assert plain + "" == plain;
    PrintAlikeIff(Description(name, kind, Some(unit), text), Description(name, kind, None, plain));
    hide ItemsText, DescriptionItems;
  }
}
