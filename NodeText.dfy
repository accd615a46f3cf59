/**
 * Text extraction from a parsed XML response (`_nodeValues`). Parsing itself
 * is not modelled: a parsed document is given as the ordered text contents
 * of the elements of each tag name, in document order.
 */
module NodeText {
  import opened Strings

  /** Tag name to the texts of all elements of that name, in document order. */
  type Document = map<string, seq<string>>

  /** getElementsByTagName(name), read as texts: empty when no element has that name. */
  function Elements(doc: Document, name: string): seq<string> {
    if name in doc then doc[name] else []
  }

  /**
   * What `_nodeValues` returns: undefined for no match, the text itself for
   * one match, an array of texts for several matches.
   */
  datatype NodeValue = Undefined | Text(text: string) | Texts(texts: seq<string>)
  {
    /** The shapes `_nodeValues` can produce: an array only for two or more texts. */
    predicate WellFormed() {
      Texts? ==> |texts| >= 2
    }
  }

  /** Splits a sequence of texts by cardinality, the way `_nodeValues` does. */
  function FromSequence(s: seq<string>): (v: NodeValue)
    ensures v.WellFormed()
  {
    if |s| == 0 then Undefined
    else if |s| == 1 then Text(s[0])
    else Texts(s)
  }

  /** The cardinality-free view: every match, in order (possibly none). */
  function Values(v: NodeValue): seq<string> {
    match v
    case Undefined => []
    case Text(t) => [t]
    case Texts(ts) => ts
  }

  /** `_nodeValues(xml, name)` on the document parsed from xml. */
  function NodeValues(doc: Document, name: string): NodeValue {
    FromSequence(Elements(doc, name))
  }

  /** No text is lost: the extracted value lists exactly the matching elements' texts in order. */
  lemma ValuesFromSequence(s: seq<string>)
    ensures Values(FromSequence(s)) == s
  {
  }

  /** And the shape is determined by those texts. */
  lemma FromSequenceValues(v: NodeValue)
    requires v.WellFormed()
    ensures FromSequence(Values(v)) == v
  {
  }

  /** The three cardinalities of `_nodeValues`. */
  lemma NodeValuesCardinality(doc: Document, name: string)
    ensures NodeValues(doc, name).Undefined? <==> |Elements(doc, name)| == 0
    ensures NodeValues(doc, name).Text? <==> |Elements(doc, name)| == 1
    ensures NodeValues(doc, name).Texts? <==> |Elements(doc, name)| >= 2
    ensures Values(NodeValues(doc, name)) == Elements(doc, name)
  {
    ValuesFromSequence(Elements(doc, name));
  }

  /** JavaScript truthiness of the value: undefined and the empty string are falsy. */
  predicate Truthy(v: NodeValue) {
    match v
    case Undefined => false
    case Text(t) => t != ""
    case Texts(_) => true
  }

  /**
   * `v.indexOf(needle)`: on a string a substring search, on an array a
   * search for an equal element. (Calling it on undefined throws; no caller does.)
   */
  function IndexOf(v: NodeValue, needle: string): int
    requires !v.Undefined?
  {
    match v
    case Text(t) => StringIndexOf(t, needle)
    case Texts(ts) => SeqIndexOf(ts, needle)
  }

  /** `v.indexOf(needle) >= 0` is a substring test for one text and a membership test for several. */
  lemma IndexOfFound(v: NodeValue, needle: string)
    requires !v.Undefined?
    ensures IndexOf(v, needle) >= 0 <==>
      (v.Text? && Contains(v.text, needle)) || (v.Texts? && needle in v.texts)
  {
    if v.Text? {
      StringIndexOfFound(v.text, needle);
    } else {
      SeqIndexOfFirst(v.texts, needle);
    }
  }

  /** The text a template literal `${v}` produces: "undefined", the string, or the comma-joined array. */
  function TemplateText(v: NodeValue): string {
    match v
    case Undefined => "undefined"
    case Text(t) => t
    case Texts(ts) => Join(ts, ",")
  }

  /** The example document <a><b>bbb</b><c>ccc</c><c>ddd</c></a>. */
  function ExampleDocument(): Document {
    map["a" := ["bbbcccddd"], "b" := ["bbb"], "c" := ["ccc", "ddd"]]
  }

  lemma ExampleNodeValues()
    ensures NodeValues(ExampleDocument(), "b") == Text("bbb")
    ensures NodeValues(ExampleDocument(), "c") == Texts(["ccc", "ddd"])
    ensures NodeValues(ExampleDocument(), "z") == Undefined
  {
  }
}
