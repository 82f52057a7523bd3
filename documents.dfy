/** The parsed OpenAPI document the splitter reads, and the one-path fragment
    document it writes for each path. YAML/JSON parsing and dumping are not
    modelled: documents are already-parsed values. */
module Documents {
  import opened Wrappers

  /** A parsed YAML/JSON value. The splitter never looks inside one: path
      items and the `info` block are carried through unchanged. A key given
      with no value (`info:`) holds `Null`, which `dict.get` returns as it
      is, so a null `openapi` or `info` is copied into every fragment. */
  datatype Node =
    | Null
    | Scalar(text: string)
    | Sequence(items: seq<Node>)
    | Mapping(entries: seq<(string, Node)>)

  /** A top-level OpenAPI mapping, reduced to the three keys the splitter
      reads. Each key may be absent; `paths` keeps the mapping's insertion
      order as a sequence of (path, path item) pairs. */
  datatype Document = Document(
    openapi: Option<Node>,
    info: Option<Node>,
    paths: Option<seq<(string, Node)>>)

  /** The `openapi` value used when the source has none. */
  const DefaultVersion: Node := Scalar("3.0.0")

  /** The `info` value used when the source has none: an empty mapping. */
  const EmptyInfo: Node := Mapping([])

  /** `openapi_dict.get("paths", {}).items()`: the path entries in document
      order, none when the key is absent. */
  function Entries(doc: Document): (entries: seq<(string, Node)>)
    ensures doc.paths.None? ==> entries == []
    ensures doc.paths.Some? ==> entries == doc.paths.value
  {
    doc.paths.GetOr([])
  }

  /** The keys of a path sequence are pairwise distinct, as the keys of a
      parsed mapping are. */
  predicate DistinctKeys(entries: seq<(string, Node)>) {
    forall i, j :: 0 <= i < j < |entries| ==> entries[i].0 != entries[j].0
  }

  /** The fragment written for one path: the source's `openapi` and `info`
      (or their defaults) and a `paths` mapping holding exactly the one
      original (path, item) pair. */
  function MakeFragment(doc: Document, path: string, item: Node): (fragment: Document)
    ensures fragment.openapi == Some(if doc.openapi.Some? then doc.openapi.value else DefaultVersion)
    ensures fragment.info == Some(if doc.info.Some? then doc.info.value else EmptyInfo)
    ensures Entries(fragment) == [(path, item)]
  {
    Document(
      Some(doc.openapi.GetOr(DefaultVersion)),
      Some(doc.info.GetOr(EmptyInfo)),
      Some([(path, item)]))
  }

  /** A fragment is itself a well-formed document (all three keys present,
      distinct path keys), and building the fragment of its own single path
      from it gives it back unchanged: re-splitting a fragment is a no-op. */
  lemma FragmentIsFixedPoint(doc: Document, path: string, item: Node)
    ensures var fragment := MakeFragment(doc, path, item);
      && fragment.openapi.Some? && fragment.info.Some? && fragment.paths.Some?
      && DistinctKeys(Entries(fragment))
      && MakeFragment(fragment, path, item) == fragment
  {
  }

  /** All fragments of one document share its header: they differ only in
      their single path entry, and two fragments are equal exactly when
      their entries are. */
  lemma FragmentsShareHeader(doc: Document, path1: string, item1: Node, path2: string, item2: Node)
    ensures MakeFragment(doc, path1, item1).openapi == MakeFragment(doc, path2, item2).openapi
    ensures MakeFragment(doc, path1, item1).info == MakeFragment(doc, path2, item2).info
    ensures MakeFragment(doc, path1, item1) == MakeFragment(doc, path2, item2)
        <==> path1 == path2 && item1 == item2
  {
    if MakeFragment(doc, path1, item1) == MakeFragment(doc, path2, item2) {
      assert Entries(MakeFragment(doc, path1, item1))[0] == (path1, item1);
    }
  }
}
