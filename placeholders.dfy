/** Placeholder substitution: the key loop of `edit_docx_convert_to_pdf_and_save`, on a
    paragraph's text and on the paragraphs of a whole document. */
module Placeholders {
  import opened PyText

  /** The placeholder dictionary, as its (key, value) pairs in iteration order. */
  type Mapping = seq<(string, string)>

  /** The paragraphs of one table cell. */
  type Cell = seq<string>
  type Row = seq<Cell>
  type Table = seq<Row>

  /** A document as the edit sees it: the body paragraphs, the tables, and the text it
      never visits (headers, footers, text boxes, tables nested inside cells). */
  datatype DocContent = DocContent(paragraphs: seq<string>, tables: seq<Table>, otherText: seq<string>)

  /** One turn of the key loop: `if key in text: text = text.replace(key, value)`. */
  function ApplyPair(text: string, key: string, value: string): string
  {
    if In(key, text) then Replace(text, key, value) else text
  }

  /** The whole key loop on one paragraph: every pair, in mapping order. */
  function Substitute(m: Mapping, text: string): string
    decreases |m|
  {
    if m == [] then text else Substitute(m[1..], ApplyPair(text, m[0].0, m[0].1))
  }

  /** The key loop, run on one paragraph's text. */
  method SubstituteParagraph(m: Mapping, text: string) returns (r: string)
    ensures r == Substitute(m, text)
  {
    r := text;
    for i := 0 to |m|
      invariant Substitute(m[i..], r) == Substitute(m, text)
    {
      assert m[i..][0] == m[i] && m[i..][1..] == m[i + 1..];
      var (key, value) := m[i];
      if In(key, r) {
        r := Replace(r, key, value);
      }
    }
    assert m[|m|..] == [];
  }

  /** Keys are applied one after another: a mapping split in two acts as its first part
      followed by its second. */
  lemma {:induction false} SubstituteConcat(m1: Mapping, m2: Mapping, text: string)
    ensures Substitute(m1 + m2, text) == Substitute(m2, Substitute(m1, text))
    decreases |m1|
  {
    if m1 == [] {
      assert m1 + m2 == m2;
    } else {
      assert (m1 + m2)[0] == m1[0] && (m1 + m2)[1..] == m1[1..] + m2;
      SubstituteConcat(m1[1..], m2, ApplyPair(text, m1[0].0, m1[0].1));
    }
  }

  /** None of the keys occurs in `text`. */
  predicate NoKeyIn(m: Mapping, text: string)
  {
    forall i :: 0 <= i < |m| ==> !In(m[i].0, text)
  }

  /** A paragraph containing none of the keys is left exactly as it was. */
  lemma {:induction false} SubstituteWithoutKeys(m: Mapping, text: string)
    requires NoKeyIn(m, text)
    ensures Substitute(m, text) == text
    decreases |m|
  {
    if m != [] {
      assert !In(m[0].0, text);
      assert NoKeyIn(m[1..], text) by {
        forall i | 0 <= i < |m[1..]| ensures !In(m[1..][i].0, text) {
          assert m[1..][i] == m[i + 1];
        }
      }
      SubstituteWithoutKeys(m[1..], text);
    }
  }

  /** One key with an unambiguous value: afterwards the key is gone from the paragraph,
      and if it was there the value now is. */
  lemma SubstituteSingleKey(key: string, value: string, text: string)
    requires Unambiguous(key, value)
    ensures !In(key, Substitute([(key, value)], text))
    ensures In(key, text) ==> In(value, Substitute([(key, value)], text))
  {
    assert [(key, value)][1..] == [];
    if In(key, text) {
      ReplaceRemovesKey(text, key, value);
      ReplaceInsertsValue(text, key, value);
    }
  }

  /** A copied character: the scan does not match at the start. */
  lemma ScanCopies(c: char, rest: string, k: string, v: string)
    requires k != [] && !HasPrefix([c] + rest, k)
    ensures ReplaceScan([c] + rest, k, v) == [c] + ReplaceScan(rest, k, v)
  {
    assert ([c] + rest)[1..] == rest;
  }

  /** A prefix at none of whose positions the key starts is copied unchanged. */
  lemma {:induction false} ScanCopiesPrefix(p: string, rest: string, k: string, v: string)
    requires k != []
    requires forall i :: 0 <= i < |p| ==> !HasPrefix((p + rest)[i..], k)
    ensures ReplaceScan(p + rest, k, v) == p + ReplaceScan(rest, k, v)
    decreases |p|
  {
    if p == [] {
      assert p + rest == rest;
    } else {
      assert !HasPrefix((p + rest)[0..], k);
      assert (p + rest)[0..] == p + rest;
      assert (p + rest)[1..] == p[1..] + rest;
      forall i | 0 <= i < |p[1..]| ensures !HasPrefix((p[1..] + rest)[i..], k) {
        assert (p[1..] + rest)[i..] == (p + rest)[i + 1..];
      }
      ScanCopiesPrefix(p[1..], rest, k, v);
    }
  }

  /** The text after the placeholder in the counterexample holds no placeholder. */
  lemma CounterexampleTail()
    ensures !In("{insertSection}", "tion}")
  {
    var k := "{insertSection}";
    assert !In(k, "");
    assert !In(k, "}");
    assert !In(k, "n}");
    assert !In(k, "on}");
    assert !In(k, "ion}");
  }

  /** No placeholder starts inside the text before it. */
  lemma CounterexamplePrefix(rest: string)
    requires rest != [] && rest[0] == '{'
    ensures forall i :: 0 <= i < 7 ==> !HasPrefix(("{insert" + rest)[i..], "{insertSection}")
  {
    var s := "{insert" + rest;
    forall i | 0 <= i < 7 ensures !HasPrefix(s[i..], "{insertSection}") {
      if i == 0 {
        assert s[7] == '{';
      } else {
        assert s[i..][0] == s[i] && s[i] != '{';
      }
    }
  }

  /** A text with exactly one occurrence of the key, found after a prefix where the key
      does not start. */
  lemma ReplaceOneOccurrence(p: string, k: string, tail: string, v: string)
    requires k != [] && !In(k, tail)
    requires forall i :: 0 <= i < |p| ==> !HasPrefix((p + (k + tail))[i..], k)
    ensures Replace(p + (k + tail), k, v) == p + (v + tail)
  {
    ReplaceWithoutKey(tail, k, v);
    var s := k + tail;
    assert HasPrefix(s, k) && s[|k|..] == tail;
    ScanCopiesPrefix(p, s, k, v);
  }

  /** The counterexample's pieces: the text before the key, and what they join into. */
  lemma CounterexamplePieces(p: string, k: string, t: string, v: string)
    requires p == "{insert" && k == "{insertSection}" && t == "tion}" && v == "Sec"
    ensures p + (k + t) == "{insert{insertSection}tion}"
    ensures p + (v + t) == k
  {
  }

  /** The replacement step of the counterexample. */
  lemma CounterexampleReplace(s: string, k: string, v: string)
    requires s == "{insert{insertSection}tion}" && k == "{insertSection}" && v == "Sec"
    ensures Replace(s, k, v) == k
  {
    var p, t := "{insert", "tion}";
    CounterexamplePieces(p, k, t, v);
    CounterexampleTail();
    CounterexamplePrefix(k + t);
    ReplaceOneOccurrence(p, k, t, v);
  }

  /** The counterexample's paragraph does hold the key. */
  lemma CounterexampleHasKey()
    ensures In("{insertSection}", "{insert{insertSection}tion}")
  {
    var s := "{insert{insertSection}tion}";
    assert s[7..][..15] == "{insertSection}";
    assert OccursAt("{insertSection}", s, 7);
    InIffOccurs("{insertSection}", s);
  }

  /** A value that does not contain the key can still leave the key behind, rebuilt from
      the text around the occurrence it replaced. */
  lemma SingleKeyCanSurvive()
    ensures !In("{insertSection}", "Sec")
    ensures Substitute([("{insertSection}", "Sec")], "{insert{insertSection}tion}") == "{insertSection}"
  {
    var k := "{insertSection}";
    CounterexampleReplace("{insert{insertSection}tion}", k, "Sec");
    CounterexampleHasKey();
    assert [(k, "Sec")][1..] == [];
    assert !In(k, "Sec") by {
      assert !In(k, "") && !In(k, "c") && !In(k, "ec");
    }
  }

  /** The key loop on every paragraph of a list, in place. */
  function SubstituteAll(m: Mapping, ps: seq<string>): (r: seq<string>)
    ensures |r| == |ps|
  {
    seq(|ps|, i requires 0 <= i < |ps| => Substitute(m, ps[i]))
  }

  function SubstituteRow(m: Mapping, row: Row): (r: Row)
    ensures |r| == |row|
  {
    seq(|row|, c requires 0 <= c < |row| => SubstituteAll(m, row[c]))
  }

  function SubstituteTable(m: Mapping, table: Table): (r: Table)
    ensures |r| == |table|
  {
    seq(|table|, r requires 0 <= r < |table| => SubstituteRow(m, table[r]))
  }

  function SubstituteTables(m: Mapping, tables: seq<Table>): (r: seq<Table>)
    ensures |r| == |tables|
  {
    seq(|tables|, t requires 0 <= t < |tables| => SubstituteTable(m, tables[t]))
  }

  /** The two loops of the edit: body paragraphs, then every paragraph of every cell of
      every row of every table; nothing else. */
  function SubstituteDocument(m: Mapping, d: DocContent): DocContent
  {
    DocContent(SubstituteAll(m, d.paragraphs), SubstituteTables(m, d.tables), d.otherText)
  }

  /** `p` is the text of a paragraph the edit visits: one in the body, or one in a cell. */
  predicate IsVisited(d: DocContent, p: Path)
  {
    match p
    case Body(i) => 0 <= i < |d.paragraphs|
    case InCell(t, r, c, i) =>
      0 <= t < |d.tables| && 0 <= r < |d.tables[t]| && 0 <= c < |d.tables[t][r]|
      && 0 <= i < |d.tables[t][r][c]|
  }

  /** Where a visited paragraph sits. */
  datatype Path = Body(i: int) | InCell(t: int, r: int, c: int, p: int)

  function TextAt(d: DocContent, p: Path): string
    requires IsVisited(d, p)
  {
    match p
    case Body(i) => d.paragraphs[i]
    case InCell(t, r, c, i) => d.tables[t][r][c][i]
  }

  /** The edit keeps the document's shape and the text outside the visited paragraphs,
      and gives every visited paragraph, in the body or in a cell, the same key loop. */
  lemma SubstituteDocumentShape(m: Mapping, d: DocContent)
    ensures SubstituteDocument(m, d).otherText == d.otherText
    ensures forall p :: IsVisited(d, p) <==> IsVisited(SubstituteDocument(m, d), p)
    ensures forall p :: IsVisited(d, p) ==>
      TextAt(SubstituteDocument(m, d), p) == Substitute(m, TextAt(d, p))
  {
  }

  /** A document none of whose visited paragraphs contains a key is left as it was. */
  lemma DocumentWithoutKeys(m: Mapping, d: DocContent)
    requires forall p :: IsVisited(d, p) ==> NoKeyIn(m, TextAt(d, p))
    ensures SubstituteDocument(m, d) == d
  {
    var e := SubstituteDocument(m, d);
    forall i | 0 <= i < |d.paragraphs| ensures e.paragraphs[i] == d.paragraphs[i] {
      assert IsVisited(d, Body(i));
      SubstituteWithoutKeys(m, d.paragraphs[i]);
    }
    forall t, r, c, i |
      0 <= t < |d.tables| && 0 <= r < |d.tables[t]| && 0 <= c < |d.tables[t][r]|
      && 0 <= i < |d.tables[t][r][c]|
      ensures e.tables[t][r][c][i] == d.tables[t][r][c][i]
    {
      assert IsVisited(d, InCell(t, r, c, i));
      SubstituteWithoutKeys(m, d.tables[t][r][c][i]);
    }
    forall t, r, c | 0 <= t < |d.tables| && 0 <= r < |d.tables[t]| && 0 <= c < |d.tables[t][r]|
      ensures e.tables[t][r][c] == d.tables[t][r][c]
    {
    }
    forall t, r | 0 <= t < |d.tables| && 0 <= r < |d.tables[t]|
      ensures e.tables[t][r] == d.tables[t][r]
    {
    }
    forall t | 0 <= t < |d.tables| ensures e.tables[t] == d.tables[t] {
    }
  }

  /** Substituting one key with an unambiguous value leaves the key in no visited
      paragraph, and puts the value wherever the key was. */
  lemma DocumentSingleKey(key: string, value: string, d: DocContent)
    requires Unambiguous(key, value)
    ensures forall p :: IsVisited(d, p) ==>
      !In(key, TextAt(SubstituteDocument([(key, value)], d), p))
    ensures forall p :: IsVisited(d, p) && In(key, TextAt(d, p)) ==>
      In(value, TextAt(SubstituteDocument([(key, value)], d), p))
  {
    SubstituteDocumentShape([(key, value)], d);
    forall p | IsVisited(d, p)
      ensures !In(key, TextAt(SubstituteDocument([(key, value)], d), p))
      ensures In(key, TextAt(d, p)) ==> In(value, TextAt(SubstituteDocument([(key, value)], d), p))
    {
      SubstituteSingleKey(key, value, TextAt(d, p));
    }
  }

  /** The handler's placeholder with the value `Hello`: no `{insertSection}` is left in
      any paragraph of the body or of a table cell, and `Hello` is in each one that held it. */
  lemma InsertSectionHello(d: DocContent)
    ensures forall p :: IsVisited(d, p) ==>
      !In("{insertSection}", TextAt(SubstituteDocument([("{insertSection}", "Hello")], d), p))
    ensures forall p :: IsVisited(d, p) && In("{insertSection}", TextAt(d, p)) ==>
      In("Hello", TextAt(SubstituteDocument([("{insertSection}", "Hello")], d), p))
  {
    assert Unambiguous("{insertSection}", "Hello");
    DocumentSingleKey("{insertSection}", "Hello", d);
  }
}
