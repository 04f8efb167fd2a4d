/**
  The XML branch of the payload decoder (`parse_xml_payload`, log_parser.py).
  The XML parser itself (`ET.fromstring`) is not part of this model: it is given as a
  function from the cleaned text to a parsed element tree or one of its two failures.
 */
module XmlPayload {
  import opened Wrappers
  import opened Text
  import opened Dict

  /** One element of an ElementTree: its tag (possibly `{namespace}local`), its `Name`
      attribute if it has one, its leading text if any, and its child elements. */
  datatype Element = Element(tag: string, nameAttr: Option<string>, text: Option<string>, children: seq<Element>)

  /** What `ET.fromstring` does with a text: a tree, `ET.ParseError`, or any other exception. */
  datatype XmlParse = Parsed(root: Element) | ParseError | OtherError

  /** A value in the decoded mapping: a single text, or the list a repeated tag coalesces into. */
  datatype Value = Str(s: string) | Items(items: seq<string>)

  const UnparsedKey := "XmlPayload_Unparsed"
  const ErrorKey := "XmlPayload_Error"
  /** Diagnostic values keep at most this many characters of the raw payload. */
  const DiagnosticLength := 500

  /** `root.iter()`: the element and all its descendants, in document (pre-)order. */
  function Preorder(es: seq<Element>): seq<Element>
    decreases es
  {
    if es == [] then [] else [es[0]] + Preorder(es[0].children) + Preorder(es[1..])
  }

  /** `xml_string.replace('\x00', '').strip()` */
  function Cleaned(xml: string): (c: string)
    ensures '\0' !in c
  {
    var noNul := Replace(xml, "\0", "");
    ReplaceCharRemoves(xml, '\0', "");
    Strip(noNul)
  }

  /** A Python `str` or `None` used as a condition: present and non-empty. */
  predicate Truthy(s: Option<string>) {
    s.Some? && s.value != ""
  }

  /** `elem.text.strip() if elem.text else None` */
  function TextContent(e: Element): Option<string> {
    if Truthy(e.text) then Some(Strip(e.text.value)) else None
  }

  /** `tag.split('}')[-1] if '}' in tag else tag`: the tag without its namespace. */
  function LocalName(tag: string): (r: string)
    ensures '}' !in r
  {
    if '}' in tag then var parts := Split(tag, '}'); parts[|parts| - 1] else tag
  }

  /** The element is keyed by its `Name` attribute (line 23). */
  predicate IsNamed(e: Element) {
    Truthy(e.nameAttr) && Truthy(TextContent(e))
  }

  /** The element is an unnamed leaf with text, keyed by its local tag (line 25). */
  predicate IsTaggedLeaf(e: Element) {
    !Truthy(e.nameAttr) && Truthy(TextContent(e)) && e.tag != "" && e.children == []
  }

  /** The key a visited element writes, if any. */
  function KeyOf(e: Element): Option<string> {
    if IsNamed(e) then Some(e.nameAttr.value)
    else if IsTaggedLeaf(e) then Some(LocalName(e.tag))
    else None
  }

  /** All texts a mapping value stands for, in order. */
  function ValuesOf(v: Option<Value>): seq<string> {
    match v
    case None => []
    case Some(Str(s)) => [s]
    case Some(Items(items)) => items
  }

  /** One iteration of the loop over `root.iter()` (lines 21-32). */
  function Visit(details: Dict<Value>, e: Element): (r: Dict<Value>)
    ensures IsNamed(e) ==> Get(r, e.nameAttr.value) == Some(Str(TextContent(e).value))
    ensures IsTaggedLeaf(e) ==>
      ValuesOf(Get(r, LocalName(e.tag))) == ValuesOf(Get(details, LocalName(e.tag))) + [TextContent(e).value]
    ensures forall k | Some(k) != KeyOf(e) :: Get(r, k) == Get(details, k)
    ensures UniqueKeys(details) ==> UniqueKeys(r)
  {
    var text := TextContent(e);
    if IsNamed(e) then
      Put(details, e.nameAttr.value, Str(text.value))
    else if IsTaggedLeaf(e) then
      Accumulate(details, LocalName(e.tag), text.value)
    else
      details
  }

  /** A leaf text under key `tag`: the first is stored as is, a second turns the entry into a
      list, later ones are appended to the list (lines 25-32). */
  function Accumulate(details: Dict<Value>, tag: string, text: string): (r: Dict<Value>)
    ensures ValuesOf(Get(r, tag)) == ValuesOf(Get(details, tag)) + [text]
    ensures forall k | k != tag :: Get(r, k) == Get(details, k)
    ensures UniqueKeys(details) ==> UniqueKeys(r)
  {
    var current: Option<Value> := Get(details, tag);
    match current
    case Some(Items(items)) => Put(details, tag, Items(items + [text]))
    case Some(Str(prev)) => Put(details, tag, Items([prev, text]))
    case None => Put(details, tag, Str(text))
  }

  /** The mapping the loop has built after visiting `es`, in order. */
  function Collect(es: seq<Element>): (d: Dict<Value>)
    ensures UniqueKeys(d)
    decreases |es|
  {
    if es == [] then [] else Visit(Collect(es[..|es| - 1]), es[|es| - 1])
  }

  /** The whole function: cleaning, the guard, parsing, the loop, and both error paths. */
  function XmlDetails(xml: string, parse: XmlParse): Dict<Value> {
    var cleaned := Cleaned(xml);
    if cleaned == "" || !StartsWith(cleaned, "<") then []
    else match parse
      case Parsed(root) => Collect(Preorder([root]))
      case ParseError => [(UnparsedKey, Str(Take(xml, DiagnosticLength)))]
      case OtherError => [(ErrorKey, Str(Take(xml, DiagnosticLength)))]
  }

  /** `parse_xml_payload`: the element loop is run imperatively over `root.iter()`. */
  method ParseXmlPayload(xml: string, fromString: string -> XmlParse) returns (details: Dict<Value>)
    ensures details == XmlDetails(xml, fromString(Cleaned(xml)))
    ensures Cleaned(xml) == "" || !StartsWith(Cleaned(xml), "<") ==> details == []
    ensures UniqueKeys(details)
  {
    details := [];
    var cleaned := Cleaned(xml);
    if cleaned == "" || !StartsWith(cleaned, "<") {
      return;
    }
    match fromString(cleaned)
    case ParseError =>
      details := [(UnparsedKey, Str(Take(xml, DiagnosticLength)))];
    case OtherError =>
      details := [(ErrorKey, Str(Take(xml, DiagnosticLength)))];
    case Parsed(root) =>
      details := VisitAll(Preorder([root]));
  }

  /** The `for elem in root.iter()` loop. */
  method VisitAll(elems: seq<Element>) returns (details: Dict<Value>)
    ensures details == Collect(elems)
  {
    details := [];
    var i := 0;
    while i < |elems|
      invariant 0 <= i <= |elems|
      invariant details == Collect(elems[..i])
    {
      assert elems[..i + 1][..i] == elems[..i];
      details := Visit(details, elems[i]);
      i := i + 1;
    }
    assert elems[..|elems|] == elems;
  }

  /** The texts of the unnamed leaves with local tag `k`, in document order. */
  function LeafTexts(es: seq<Element>, k: string): seq<string>
    decreases |es|
  {
    if es == [] then []
    else
      var e := es[|es| - 1];
      LeafTexts(es[..|es| - 1], k) + (if IsTaggedLeaf(e) && LocalName(e.tag) == k then [TextContent(e).value] else [])
  }

  /** Repeated tags never lose a value: when no named element writes key `k`, the entry
      for `k` holds every leaf text with that tag, in document order. */
  lemma {:induction false} RepeatedTagsCoalesce(es: seq<Element>, k: string)
    requires forall e | e in es :: !(IsNamed(e) && e.nameAttr.value == k)
    ensures ValuesOf(Get(Collect(es), k)) == LeafTexts(es, k)
    decreases |es|
  {
    if es != [] {
      var init := es[..|es| - 1];
      var e := es[|es| - 1];
      assert forall x | x in init :: x in es;
      RepeatedTagsCoalesce(init, k);
      if KeyOf(e) != Some(k) {
        assert Get(Collect(es), k) == Get(Collect(init), k);
      }
    }
  }

  /** A named element fixes its key's value unless a later element writes the same key. */
  lemma {:induction false} NamedElementKeepsValue(es: seq<Element>, p: nat)
    requires p < |es| && IsNamed(es[p])
    requires forall q | p < q < |es| :: KeyOf(es[q]) != Some(es[p].nameAttr.value)
    ensures Get(Collect(es), es[p].nameAttr.value) == Some(Str(TextContent(es[p]).value))
    decreases |es|
  {
    if p < |es| - 1 {
      NamedElementKeepsValue(es[..|es| - 1], p);
    }
  }

  /** The decoded mapping of `<EventData><Data Name="TargetUser">alice</Data></EventData>`. */
  lemma EventDataExample()
    ensures
      var data := Element("Data", Some("TargetUser"), Some("alice"), []);
      var root := Element("EventData", None, None, [data]);
      Collect(Preorder([root])) == [("TargetUser", Str("alice"))]
  {
    var data := Element("Data", Some("TargetUser"), Some("alice"), []);
    var root := Element("EventData", None, None, [data]);
    CollectNamedChild(root, data, "TargetUser", "alice");
  }

  /** A textless element whose only child is a named leaf: the mapping holds just that name. */
  lemma CollectNamedChild(root: Element, child: Element, name: string, text: string)
    requires text != "" && !IsSpace(text[0]) && !IsSpace(text[|text| - 1]) && name != ""
    requires child.nameAttr == Some(name) && child.text == Some(text) && child.children == []
    requires root.text == None && root.children == [child]
    ensures Collect(Preorder([root])) == [(name, Str(text))]
  {
    PreorderOfLeaf(root, child);
    CollectTwo(root, child);
    VisitSilent([], root);
    VisitNamed([], child, name, text);
    PutNew(name, Str(text));
  }

  /** `root.iter()` of an element whose only child is a leaf. */
  lemma PreorderOfLeaf(root: Element, x: Element)
    requires root.children == [x] && x.children == []
    ensures Preorder([root]) == [root, x]
  {
    assert [x][1..] == [] && [root][1..] == [];
    assert Preorder([x]) == [x];
  }

  lemma PutNew(k: string, v: Value)
    ensures Put([], k, v) == [(k, v)]
  {
    var empty: Dict<Value> := [];
    assert IndexOf(empty, k) == 0;
  }

  /** Two unnamed sibling leaves with the same tag give a two-element list, not an overwrite. */
  lemma {:induction false} DuplicateLeavesExample(a: string, b: string)
    requires a != "" && !IsSpace(a[0]) && !IsSpace(a[|a| - 1])
    requires b != "" && !IsSpace(b[0]) && !IsSpace(b[|b| - 1])
    ensures
      var root := Element("EventData", None, None, [Element("Data", None, Some(a), []), Element("Data", None, Some(b), [])]);
      Get(Collect(Preorder([root])), "Data") == Some(Items([a, b]))
  {
    var x := Element("Data", None, Some(a), []);
    var y := Element("Data", None, Some(b), []);
    var root := Element("EventData", None, None, [x, y]);
    CollectTwoLeaves(root, "Data", a, b);
    AccumulateTwice("Data", a, b);
  }

  /** A textless element with two unnamed leaves under the same tag: the mapping is both texts
      accumulated in turn. */
  lemma CollectTwoLeaves(root: Element, tag: string, a: string, b: string)
    requires a != "" && !IsSpace(a[0]) && !IsSpace(a[|a| - 1])
    requires b != "" && !IsSpace(b[0]) && !IsSpace(b[|b| - 1])
    requires tag != "" && '}' !in tag
    requires root.text == None
    requires root.children == [Element(tag, None, Some(a), []), Element(tag, None, Some(b), [])]
    ensures Collect(Preorder([root])) == Accumulate(Accumulate([], tag, a), tag, b)
  {
    var x := root.children[0];
    var y := root.children[1];
    PreorderOfLeaves(root, x, y);
    CollectThree(root, x, y);
    VisitSilent([], root);
    VisitLeaf([], tag, a);
    VisitLeaf(Visit([], x), tag, b);
  }

  /** The loop over three elements visits them in turn. */
  lemma CollectThree(e0: Element, e1: Element, e2: Element)
    ensures Collect([e0, e1, e2]) == Visit(Visit(Visit([], e0), e1), e2)
  {
    CollectTwo(e0, e1);
    assert [e0, e1, e2][..2] == [e0, e1];
  }

  lemma CollectTwo(e0: Element, e1: Element)
    ensures Collect([e0, e1]) == Visit(Visit([], e0), e1)
  {
    CollectOne(e0);
    assert [e0, e1][..1] == [e0];
  }

  lemma CollectOne(e0: Element)
    ensures Collect([e0]) == Visit([], e0)
  {
    assert [e0][..0] == [];
  }

  /** Two texts accumulated under a fresh key make a two-element list. */
  lemma AccumulateTwice(tag: string, a: string, b: string)
    ensures Get(Accumulate(Accumulate([], tag, a), tag, b), tag) == Some(Items([a, b]))
  {
    var empty: Dict<Value> := [];
    assert Get(empty, tag) == None;
    var c := Accumulate(empty, tag, a);
    assert c == Put(empty, tag, Str(a));
    assert Get(c, tag) == Some(Str(a));
  }

  /** An element without text writes nothing. */
  lemma VisitSilent(d: Dict<Value>, e: Element)
    requires e.text == None
    ensures Visit(d, e) == d
  {
    assert TextContent(e) == None;
  }

  /** An unnamed leaf whose text is already stripped adds that text under its tag. */
  lemma VisitLeaf(d: Dict<Value>, tag: string, text: string)
    requires text != "" && !IsSpace(text[0]) && !IsSpace(text[|text| - 1])
    requires tag != "" && '}' !in tag
    ensures Visit(d, Element(tag, None, Some(text), [])) == Accumulate(d, tag, text)
  {
    var e := Element(tag, None, Some(text), []);
    StripOfStripped(text);
    assert TextContent(e) == Some(text);
    assert !IsNamed(e) && IsTaggedLeaf(e);
    assert LocalName(tag) == tag;
  }

  /** A named element whose text is already stripped stores that text under its name. */
  lemma VisitNamed(d: Dict<Value>, e: Element, name: string, text: string)
    requires e.nameAttr == Some(name) && name != "" && e.text == Some(text)
    requires text != "" && !IsSpace(text[0]) && !IsSpace(text[|text| - 1])
    ensures Visit(d, e) == Put(d, name, Str(text))
  {
    StripOfStripped(text);
  }

  /** `root.iter()` of an element whose two children are leaves. */
  lemma PreorderOfLeaves(root: Element, x: Element, y: Element)
    requires root.children == [x, y] && x.children == [] && y.children == []
    ensures Preorder([root]) == [root, x, y]
  {
    assert [y][1..] == [] && [root][1..] == [];
    assert Preorder([y]) == [y];
    assert Preorder([x, y]) == [x] + Preorder([y]) by {
      assert [x, y][1..] == [y];
    }
  }
}
