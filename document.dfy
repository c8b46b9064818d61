/** The template document while it is being edited: its paragraphs are rewritten in
    place, first in the body, then table by table, row by row, cell by cell. */
module DocumentModel {
  import opened Placeholders

  class Document {
    /** The text of each body paragraph. */
    var paragraphs: seq<string>
    /** Each table's rows, each row's cells, each cell's paragraph texts. */
    var tables: seq<Table>
    /** Text the edit never visits (headers, footers, text boxes, nested tables). */
    var otherText: seq<string>

    /** The document as a value. */
    function Content(): DocContent
      reads this
    {
      DocContent(paragraphs, tables, otherText)
    }

    /** The document loaded from a template. */
    constructor (content: DocContent)
      ensures Content() == content
    {
      paragraphs := content.paragraphs;
      tables := content.tables;
      otherText := content.otherText;
    }

    /** The indices name a cell of this document. */
    predicate HasCell(t: int, r: int, c: int)
      reads this
    {
      0 <= t < |tables| && 0 <= r < |tables[t]| && 0 <= c < |tables[t][r]|
    }

    /** The loop over the body paragraphs. */
    method EditBody(m: Mapping)
      modifies this
      ensures paragraphs == SubstituteAll(m, old(paragraphs))
      ensures tables == old(tables) && otherText == old(otherText)
    {
      var i := 0;
      while i < |paragraphs|
        invariant 0 <= i <= |paragraphs| == |old(paragraphs)|
        invariant forall j :: 0 <= j < i ==> paragraphs[j] == Substitute(m, old(paragraphs)[j])
        invariant forall j :: i <= j < |paragraphs| ==> paragraphs[j] == old(paragraphs)[j]
        invariant tables == old(tables) && otherText == old(otherText)
      {
        var text := SubstituteParagraph(m, paragraphs[i]);
        paragraphs := paragraphs[i := text];
        i := i + 1;
      }
    }

    /** The loop over the paragraphs of one cell. */
    method EditCell(m: Mapping, t: nat, r: nat, c: nat)
      requires HasCell(t, r, c)
      modifies this
      ensures tables == old(tables)[t := old(tables)[t][r := old(tables)[t][r][c :=
        SubstituteAll(m, old(tables)[t][r][c])]]]
      ensures paragraphs == old(paragraphs) && otherText == old(otherText)
    {
      ghost var cell0 := tables[t][r][c];
      assert old(tables)[t][r][c := cell0] == old(tables)[t][r];
      assert old(tables)[t][r := old(tables)[t][r]] == old(tables)[t];
      assert old(tables)[t := old(tables)[t]] == old(tables);
      var i := 0;
      while i < |tables[t][r][c]|
        invariant HasCell(t, r, c) && |tables[t][r][c]| == |cell0|
        invariant 0 <= i <= |cell0|
        invariant tables == old(tables)[t := old(tables)[t][r := old(tables)[t][r][c := tables[t][r][c]]]]
        invariant forall j :: 0 <= j < i ==> tables[t][r][c][j] == Substitute(m, cell0[j])
        invariant forall j :: i <= j < |cell0| ==> tables[t][r][c][j] == cell0[j]
        invariant paragraphs == old(paragraphs) && otherText == old(otherText)
      {
        var text := SubstituteParagraph(m, tables[t][r][c][i]);
        var cell := tables[t][r][c][i := text];
        ghost var o := old(tables);
        assert tables[t][r][c := cell] == o[t][r][c := cell];
        assert tables[t][r := o[t][r][c := cell]] == o[t][r := o[t][r][c := cell]];
        assert tables[t := o[t][r := o[t][r][c := cell]]] == o[t := o[t][r := o[t][r][c := cell]]];
        tables := tables[t := tables[t][r := tables[t][r][c := cell]]];
        assert tables[t][r][c] == cell;
        i := i + 1;
      }
      assert tables[t][r][c] == SubstituteAll(m, cell0);
    }

    /** The loop over the cells of one row. */
    method EditRow(m: Mapping, t: nat, r: nat)
      requires 0 <= t < |tables| && 0 <= r < |tables[t]|
      modifies this
      ensures tables == old(tables)[t := old(tables)[t][r := SubstituteRow(m, old(tables)[t][r])]]
      ensures paragraphs == old(paragraphs) && otherText == old(otherText)
    {
      ghost var row0 := tables[t][r];
      assert old(tables)[t][r := row0] == old(tables)[t];
      assert old(tables)[t := old(tables)[t]] == old(tables);
      var c := 0;
      while c < |tables[t][r]|
        invariant 0 <= t < |tables| && 0 <= r < |tables[t]| && |tables[t][r]| == |row0|
        invariant 0 <= c <= |row0|
        invariant tables == old(tables)[t := old(tables)[t][r := tables[t][r]]]
        invariant forall j :: 0 <= j < c ==> tables[t][r][j] == SubstituteAll(m, row0[j])
        invariant forall j :: c <= j < |row0| ==> tables[t][r][j] == row0[j]
        invariant paragraphs == old(paragraphs) && otherText == old(otherText)
      {
        ghost var o := old(tables);
        ghost var before := tables;
        EditCell(m, t, r, c);
        ghost var row := before[t][r][c := SubstituteAll(m, before[t][r][c])];
        assert tables == before[t := before[t][r := row]];
        assert before[t][r := row] == o[t][r := row];
        assert tables == o[t := o[t][r := row]];
        c := c + 1;
      }
      assert tables[t][r] == SubstituteRow(m, row0);
    }

    /** The loop over the rows of one table. */
    method EditTable(m: Mapping, t: nat)
      requires 0 <= t < |tables|
      modifies this
      ensures tables == old(tables)[t := SubstituteTable(m, old(tables)[t])]
      ensures paragraphs == old(paragraphs) && otherText == old(otherText)
    {
      ghost var table0 := tables[t];
      assert old(tables)[t := table0] == old(tables);
      var r := 0;
      while r < |tables[t]|
        invariant 0 <= t < |tables| && |tables[t]| == |table0|
        invariant 0 <= r <= |table0|
        invariant tables == old(tables)[t := tables[t]]
        invariant forall j :: 0 <= j < r ==> tables[t][j] == SubstituteRow(m, table0[j])
        invariant forall j :: r <= j < |table0| ==> tables[t][j] == table0[j]
        invariant paragraphs == old(paragraphs) && otherText == old(otherText)
      {
        EditRow(m, t, r);
        r := r + 1;
      }
      assert tables[t] == SubstituteTable(m, table0);
    }

    /** The loop over the tables. */
    method EditTables(m: Mapping)
      modifies this
      ensures tables == SubstituteTables(m, old(tables))
      ensures paragraphs == old(paragraphs) && otherText == old(otherText)
    {
      var t := 0;
      while t < |tables|
        invariant 0 <= t <= |tables| == |old(tables)|
        invariant forall j :: 0 <= j < t ==> tables[j] == SubstituteTable(m, old(tables)[j])
        invariant forall j :: t <= j < |tables| ==> tables[j] == old(tables)[j]
        invariant paragraphs == old(paragraphs) && otherText == old(otherText)
      {
        EditTable(m, t);
        t := t + 1;
      }
    }

    /** Both loops of the edit: afterwards the document is the substituted one. */
    method ReplacePlaceholders(m: Mapping)
      modifies this
      ensures Content() == SubstituteDocument(m, old(Content()))
    {
      EditBody(m);
      EditTables(m);
    }
  }
}
