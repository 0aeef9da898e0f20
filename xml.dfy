/** The part of LINQ to XML the settings file uses: a document is its
    declaration and one root element, an element has a name and child nodes,
    and a node is an element or a run of text. The file on disk is the tree
    itself; its text form is not modelled. */
module Xml {
  import opened Wrappers

  datatype XNode = XText(text: string) | XElement(name: string, children: seq<XNode>)

  datatype XDeclaration = XDeclaration(version: string, encoding: string)

  datatype XDocument = XDocument(declaration: XDeclaration, root: XNode)

  /** `XElement.Value`: the text of every descendant text node, in document
      order. */
  function Value(n: XNode): string
  {
    match n
    case XText(t) => t
    case XElement(_, cs) => Values(cs)
  }

  function Values(cs: seq<XNode>): string
  {
    if cs == [] then [] else Value(cs[0]) + Values(cs[1..])
  }

  /** `XElement.Elements()`: the child nodes that are elements, in order. */
  function Elements(n: XNode): (es: seq<XNode>)
    ensures forall i :: 0 <= i < |es| ==> es[i].XElement?
    ensures n.XText? ==> es == []
    ensures n.XElement? ==> forall x :: x in es <==> x in n.children && x.XElement?
    ensures n.XElement? && (forall i :: 0 <= i < |n.children| ==> n.children[i].XElement?) ==> es == n.children
  {
    match n
    case XText(_) => []
    case XElement(_, cs) => ElementsOf(cs)
  }

  function ElementsOf(cs: seq<XNode>): (es: seq<XNode>)
    ensures forall i :: 0 <= i < |es| ==> es[i].XElement?
    ensures forall x :: x in es <==> x in cs && x.XElement?
    ensures |es| <= |cs|
    ensures (forall i :: 0 <= i < |cs| ==> cs[i].XElement?) ==> es == cs
  {
    if cs == [] then []
    else (if cs[0].XElement? then [cs[0]] else []) + ElementsOf(cs[1..])
  }

  /** Document order: the element children of two runs of nodes are those of
      the first run followed by those of the second. */
  lemma {:induction false} ElementsOfAppend(a: seq<XNode>, b: seq<XNode>)
    ensures ElementsOf(a + b) == ElementsOf(a) + ElementsOf(b)
  {
    if a == [] {
      assert a + b == b;
    } else {
      assert (a + b)[1..] == a[1..] + b;
      ElementsOfAppend(a[1..], b);
    }
  }

  /** No child in the run is an element with that name. */
  predicate NoneNamed(cs: seq<XNode>, name: string)
  {
    forall i :: 0 <= i < |cs| ==> !(cs[i].XElement? && cs[i].name == name)
  }

  /** `XElement.Element(name)`: the first child element with that name, or
      `null`. */
  function Element(n: XNode, name: string): (r: Option<XNode>)
    ensures r.None? <==> n.XText? || NoneNamed(n.children, name)
    ensures r.Some? ==> r.value.XElement? && r.value.name == name && r.value in n.children
    ensures r.Some? ==> exists i :: 0 <= i < |n.children| && n.children[i] == r.value && NoneNamed(n.children[..i], name)
  {
    match n
    case XText(_) => None
    case XElement(_, cs) => FirstNamed(cs, name)
  }

  function FirstNamed(cs: seq<XNode>, name: string): (r: Option<XNode>)
    ensures r.None? <==> NoneNamed(cs, name)
    ensures r.Some? ==> r.value.XElement? && r.value.name == name && r.value in cs
    ensures r.Some? ==> exists i :: 0 <= i < |cs| && cs[i] == r.value && NoneNamed(cs[..i], name)
  {
    if cs == [] then None
    else if cs[0].XElement? && cs[0].name == name then
      assert cs[..0] == [];
      Some(cs[0])
    else
      var r := FirstNamed(cs[1..], name);
      if r.Some? then
        var i :| 0 <= i < |cs[1..]| && cs[1..][i] == r.value && NoneNamed(cs[1..][..i], name);
        assert cs[..i + 1] == [cs[0]] + cs[1..][..i];
        assert cs[i + 1] == r.value;
        r
      else r
  }

  /** The folders and XML documents on disk, as far as `XDocument.Load`,
      `XDocument.Save`, `Directory.Exists` and `Directory.CreateDirectory`
      see them. */
  class FileSystem {
    var Directories: set<string>
    var Documents: map<string, XDocument>

    constructor (directories: set<string>, documents: map<string, XDocument>)
      ensures Directories == directories && Documents == documents
    {
      Directories := directories;
      Documents := documents;
    }

    /** `XDocument.Load`: the document stored at the path, or
        `FileNotFoundException`. */
    function Load(path: string): (r: Result<XDocument>)
      reads this`Documents
      ensures r.Success? <==> path in Documents
      ensures r.Success? ==> r.value == Documents[path]
      ensures r.Failure? ==> r.error == FileNotFound
    {
      if path in Documents then Success(Documents[path]) else Failure(FileNotFound)
    }

    /** `Directory.CreateDirectory`. `fault` is the `IOException` or
        `UnauthorizedAccessException` the disk raises, if any; then no folder
        is made and the exception is returned. */
    method CreateDirectory(path: string, fault: Option<Error>) returns (error: Option<Error>)
      modifies this`Directories
      ensures error == fault
      ensures fault.None? ==> Directories == old(Directories) + {path}
      ensures fault.Some? ==> Directories == old(Directories)
    {
      error := fault;
      if fault.None? {
        Directories := Directories + {path};
      }
    }

    /** `XDocument.Save`: the document replaces whatever the path held.
        `fault` is the exception opening the file raises, if any; then the
        file is left as it was and the exception is returned. */
    method Save(doc: XDocument, path: string, fault: Option<Error>) returns (error: Option<Error>)
      modifies this`Documents
      ensures error == fault
      ensures fault.None? ==> Documents == old(Documents)[path := doc]
      ensures fault.Some? ==> Documents == old(Documents)
    {
      error := fault;
      if fault.None? {
        Documents := Documents[path := doc];
      }
    }
  }
}
