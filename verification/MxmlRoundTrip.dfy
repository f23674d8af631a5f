/** Saving a linked tree and loading the text again. */
module MxmlRoundTrip {
  import opened XmlReader
  import opened RoundTrip
  import opened TreeRoundTrip
  import opened MxmlNode
  import opened MxmlTree
  import opened MxmlSave
  import opened MxmlLoad

  /** The printer's text is read as the tree that was printed, so it is not empty. */
  lemma TextIsTree(ent: EntityCb, j: Job)
    requires Aimed(j) && StandardEntities(ent) && TreeOk(TreeOf(j.f, j.r, j.vals, j.node))
    ensures LoadText(ent, Whole(j)) == Tree(TreeOf(j.f, j.r, j.vals, j.node)) && Whole(j) != []
  {
    WholeIsText(j);
    PrintThenParse(ent, TreeOf(j.f, j.r, j.vals, j.node), j.wrap);
  }

  /** mxmlSaveAllocString and then mxmlLoadString: another linked tree with the same value. */
  method SaveThenLoad(ent: EntityCb, node: Node, wrap: int, ghost j: Job) returns (copy: Node?, ghost d: Doc)
    requires Writing(j, j.node, 0) && Aimed(j) && node == j.node && wrap == j.wrap
    requires StandardEntities(ent) && TreeOk(TreeOf(j.f, j.r, j.vals, j.node))
    ensures copy != null && IsTree(d, copy, TreeOf(j.f, j.r, j.vals, j.node))
  {
    ghost var x := TreeOf(j.f, j.r, j.vals, j.node);
    TextIsTree(ent, j);
    var s := SaveAllocString(node, wrap, j);
    var text := s[..s.Length - 1];
    assert text == Whole(j);
    var beyond;
    copy, beyond, d := LoadString(ent, text);
  }
}
