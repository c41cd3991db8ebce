/** What the converter promises, stated over the specification functions of
    `EasychairAcm`: the type census, which papers produce rows and in what
    order, and that a run prints either everything or nothing. */
module EasychairAcmProperties {
  import opened PyJson
  import opened EasychairAcm

  // ---------------------------------------------------------------- census

  /** The number of papers whose `paper_type` is `t`. */
  function TypeCount(papers: seq<Json>, t: Json): nat
  {
    if papers == [] then 0
    else (if Subscript(papers[0], "paper_type") == Success(t) then 1 else 0) + TypeCount(papers[1..], t)
  }

  /** Counting over a list extended by one paper. */
  lemma {:induction false} TypeCountAppend(papers: seq<Json>, paper: Json, t: Json)
    ensures TypeCount(papers + [paper], t)
            == TypeCount(papers, t) + (if Subscript(paper, "paper_type") == Success(t) then 1 else 0)
  {
    if papers == [] {
      assert [paper][1..] == [];
    } else {
      assert (papers + [paper])[1..] == papers[1..] + [paper];
      TypeCountAppend(papers[1..], paper, t);
    }
  }

  /** Counting stops only at a paper without a hashable `paper_type`. */
  lemma {:induction false} CensusSucceedsIff(papers: seq<Json>)
    ensures Census(papers).failure == None <==> forall i :: 0 <= i < |papers| ==> TypeKey(papers[i]).Success?
  {
    if papers != [] {
      var init := papers[..|papers| - 1];
      CensusSucceedsIff(init);
      assert forall i :: 0 <= i < |init| ==> init[i] == papers[i];
    }
  }

  /** After a complete census, `types[t]` is the number of papers of type `t`,
      and the counter holds exactly the types that occur. */
  lemma {:induction false} CensusCountsTypes(papers: seq<Json>)
    requires Census(papers).failure == None
    ensures forall t :: Count(Census(papers).counts, t) == TypeCount(papers, t)
    ensures forall t :: t in Census(papers).counts <==> TypeCount(papers, t) > 0
  {
    if papers != [] {
      var init := papers[..|papers| - 1];
      var last := papers[|papers| - 1];
      assert papers == init + [last];
      CensusCountsTypes(init);
      forall t
        ensures Count(Census(papers).counts, t) == TypeCount(papers, t)
        ensures t in Census(papers).counts <==> TypeCount(papers, t) > 0
      {
        TypeCountAppend(init, last, t);
      }
    }
  }

  // ---------------------------------------------------------------- rows

  /** The authors `Convert` makes rows for: none for a paper of another type. */
  function AuthorsOf(paper: Json): seq<Json>
  {
    match Subscript(paper, "paper_type")
    case Failure(_) => []
    case Success(t) =>
      if !Accepted(t) then []
      else match AuthorFieldOf(paper)
        case Failure(_) => []
        case Success(field) => field.Items()
  }

  /** A paper `Convert` passes over without raising. */
  predicate Convertible(paper: Json)
  {
    && Subscript(paper, "paper_type").Success?
    && (Accepted(Subscript(paper, "paper_type").value) ==> AuthorFieldOf(paper).Success?)
    && forall j :: 0 <= j < |AuthorsOf(paper)| ==> RowOf(paper, AuthorsOf(paper)[j]).Success?
  }

  /** Rows expected from `papers`: one per author of each full or short paper. */
  function ExpectedRowCount(papers: seq<Json>): nat
  {
    if papers == [] then 0
    else ExpectedRowCount(papers[..|papers| - 1]) + |AuthorsOf(papers[|papers| - 1])|
  }

  /** The authors of a paper all become rows exactly when none of them makes
      `Add_Author` raise. */
  lemma {:induction false} AuthorRowsSucceedIff(paper: Json, authors: seq<Json>)
    ensures AuthorRows(paper, authors).failure == None
            <==> forall j :: 0 <= j < |authors| ==> RowOf(paper, authors[j]).Success?
  {
    if authors != [] {
      var init := authors[..|authors| - 1];
      AuthorRowsSucceedIff(paper, init);
      assert forall j :: 0 <= j < |init| ==> init[j] == authors[j];
    }
  }

  /** Without an exception, the rows are those of the authors, in order. */
  lemma {:induction false} AuthorRowsContent(paper: Json, authors: seq<Json>)
    requires AuthorRows(paper, authors).failure == None
    ensures |AuthorRows(paper, authors).rows| == |authors|
    ensures forall j :: 0 <= j < |authors| ==>
      RowOf(paper, authors[j]).Success? && AuthorRows(paper, authors).rows[j] == RowOf(paper, authors[j]).value
  {
    if authors != [] {
      var init, last := authors[..|authors| - 1], authors[|authors| - 1];
      var before := AuthorRows(paper, init);
      assert before.failure == None;
      AuthorRowsContent(paper, init);
      assert forall j :: 0 <= j < |init| ==> init[j] == authors[j];
      assert AuthorRows(paper, authors).rows == before.rows + [RowOf(paper, last).value];
    }
  }

  /** One paper raises exactly when it cannot be passed over. */
  lemma PaperSucceedsIff(paper: Json)
    ensures PaperRows(paper).failure == None <==> Convertible(paper)
  {
    match Subscript(paper, "paper_type")
    case Failure(_) =>
    case Success(t) =>
      if Accepted(t) {
        match AuthorFieldOf(paper)
        case Failure(_) =>
        case Success(field) =>
          match field
          case Single(a) =>
            assert AuthorsOf(paper) == [a];
            assert PaperRows(paper).failure == None <==> RowOf(paper, a).Success?;
            assert AuthorsOf(paper)[0] == a;
          case Many(xs) =>
            assert AuthorsOf(paper) == xs;
            AuthorRowsSucceedIff(paper, xs);
      }
  }

  /** One paper: a paper of another type gives no rows; a full or short paper
      gives one row per author, in author order. */
  lemma PaperRowsShape(paper: Json)
    ensures Subscript(paper, "paper_type").Success? && !Accepted(Subscript(paper, "paper_type").value)
            ==> PaperRows(paper) == Progress([], None)
    ensures PaperRows(paper).failure == None ==>
      && |PaperRows(paper).rows| == |AuthorsOf(paper)|
      && forall j :: 0 <= j < |AuthorsOf(paper)| ==>
           RowOf(paper, AuthorsOf(paper)[j]).Success? && PaperRows(paper).rows[j] == RowOf(paper, AuthorsOf(paper)[j]).value
  {
    match Subscript(paper, "paper_type")
    case Failure(_) =>
    case Success(t) =>
      if Accepted(t) {
        match AuthorFieldOf(paper)
        case Failure(_) =>
        case Success(field) =>
          match field
          case Single(a) =>
          case Many(xs) =>
            if PaperRows(paper).failure == None {
              AuthorRowsContent(paper, xs);
            }
      }
  }

  /** `Convert` raises exactly when some paper cannot be passed over. */
  lemma {:induction false} ConvertSucceedsIff(papers: seq<Json>)
    ensures ConvertRows(papers).failure == None <==> forall i :: 0 <= i < |papers| ==> Convertible(papers[i])
  {
    if papers != [] {
      var init, last := papers[..|papers| - 1], papers[|papers| - 1];
      ConvertSucceedsIff(init);
      PaperSucceedsIff(last);
      assert forall i :: 0 <= i < |init| ==> init[i] == papers[i];
      if ConvertRows(init).failure == None {
        assert ConvertRows(papers).failure == PaperRows(last).failure;
      } else {
        assert ConvertRows(papers) == ConvertRows(init);
      }
    }
  }

  /** Without an exception, `Convert` appends one row per author of each full or short paper. */
  lemma {:induction false} ConvertRowCount(papers: seq<Json>)
    requires ConvertRows(papers).failure == None
    ensures |ConvertRows(papers).rows| == ExpectedRowCount(papers)
  {
    if papers != [] {
      var init := papers[..|papers| - 1];
      assert ConvertRows(init).failure == None;
      ConvertRowCount(init);
      PaperRowsShape(papers[|papers| - 1]);
    }
  }

  /** A complete conversion is the conversion of all papers but the last,
      followed by the rows of the last. */
  lemma ConvertRowsSplit(papers: seq<Json>)
    requires papers != [] && ConvertRows(papers).failure == None
    ensures ConvertRows(papers[..|papers| - 1]).failure == None
    ensures PaperRows(papers[|papers| - 1]).failure == None
    ensures ConvertRows(papers).rows
            == ConvertRows(papers[..|papers| - 1]).rows + PaperRows(papers[|papers| - 1]).rows
  {
  }

  /** Paper order, then author order: the `j`-th author of the `i`-th paper has
      the row right after the rows of all earlier papers and earlier authors. */
  lemma {:induction false} ConvertRowOrder(papers: seq<Json>, i: nat, j: nat)
    requires ConvertRows(papers).failure == None
    requires i < |papers| && j < |AuthorsOf(papers[i])|
    ensures ExpectedRowCount(papers[..i]) + j < |ConvertRows(papers).rows|
    ensures RowOf(papers[i], AuthorsOf(papers[i])[j]).Success?
    ensures ConvertRows(papers).rows[ExpectedRowCount(papers[..i]) + j]
            == RowOf(papers[i], AuthorsOf(papers[i])[j]).value
    decreases |papers|, 1
  {
    if i < |papers| - 1 {
      EarlierPaperRow(papers, i, j);
    } else {
      LastPaperRow(papers, j);
    }
  }

  /** `ConvertRowOrder` for a paper before the last. */
  lemma {:induction false} EarlierPaperRow(papers: seq<Json>, i: nat, j: nat)
    requires papers != [] && ConvertRows(papers).failure == None
    requires i < |papers| - 1 && j < |AuthorsOf(papers[i])|
    ensures ExpectedRowCount(papers[..i]) + j < |ConvertRows(papers).rows|
    ensures RowOf(papers[i], AuthorsOf(papers[i])[j]).Success?
    ensures ConvertRows(papers).rows[ExpectedRowCount(papers[..i]) + j]
            == RowOf(papers[i], AuthorsOf(papers[i])[j]).value
    decreases |papers|, 0
  {
    var init := papers[..|papers| - 1];
    ConvertRowsSplit(papers);
    assert init[..i] == papers[..i];
    assert init[i] == papers[i];
    ConvertRowOrder(init, i, j);
    var earlier := ConvertRows(init).rows;
    var k := ExpectedRowCount(papers[..i]) + j;
    assert k < |earlier|;
    assert ConvertRows(papers).rows[k] == earlier[k];
  }

  /** `ConvertRowOrder` for the last paper. */
  lemma LastPaperRow(papers: seq<Json>, j: nat)
    requires papers != [] && ConvertRows(papers).failure == None
    requires j < |AuthorsOf(papers[|papers| - 1])|
    ensures ExpectedRowCount(papers[..|papers| - 1]) + j < |ConvertRows(papers).rows|
    ensures RowOf(papers[|papers| - 1], AuthorsOf(papers[|papers| - 1])[j]).Success?
    ensures ConvertRows(papers).rows[ExpectedRowCount(papers[..|papers| - 1]) + j]
            == RowOf(papers[|papers| - 1], AuthorsOf(papers[|papers| - 1])[j]).value
  {
    var init := papers[..|papers| - 1];
    var last := papers[|papers| - 1];
    ConvertRowsSplit(papers);
    PaperRowsShape(last);
    ConvertRowCount(init);
  }

  /** Every paper except those of another type. */
  function DropRejected(papers: seq<Json>): seq<Json>
  {
    if papers == [] then []
    else
      var last := papers[|papers| - 1];
      var rest := DropRejected(papers[..|papers| - 1]);
      match Subscript(last, "paper_type")
      case Success(t) => if Accepted(t) then rest + [last] else rest
      case Failure(_) => rest + [last]
  }

  /** Filter completeness: removing every paper of another type beforehand
      changes neither the rows nor the outcome. */
  lemma {:induction false} RejectedPapersAddNothing(papers: seq<Json>)
    ensures ConvertRows(DropRejected(papers)) == ConvertRows(papers)
  {
    if papers != [] {
      var init := papers[..|papers| - 1];
      var last := papers[|papers| - 1];
      var rest := DropRejected(init);
      RejectedPapersAddNothing(init);
      assert (rest + [last])[..|rest|] == rest;
      PaperRowsShape(last);
    }
  }

  /** The two accepted types, lower-cased as `Add_Author` stores them. */
  lemma AcceptedTypesLowered()
    ensures AsciiLower("Full Paper") == "full paper"
    ensures AsciiLower("Short Paper") == "short paper"
  {
    assert AsciiLower("Full Paper")[0] == 'f';
    assert AsciiLower("Short Paper")[0] == 's';
    assert AsciiLower("Full Paper")[5] == 'p';
    assert AsciiLower("Short Paper")[6] == 'p';
  }

  /** Every row `Convert` appends belongs to a full or short paper. */
  lemma {:induction false} RowsAreFullOrShortPapers(papers: seq<Json>)
    ensures forall r :: r in ConvertRows(papers).rows ==>
      PaperType in r && r[PaperType] in {JStr("full paper"), JStr("short paper")}
  {
    if papers != [] {
      var init := papers[..|papers| - 1];
      var last := papers[|papers| - 1];
      RowsAreFullOrShortPapers(init);
      if ConvertRows(init).failure == None {
        AcceptedTypesLowered();
        forall r | r in PaperRows(last).rows
          ensures PaperType in r && r[PaperType] in {JStr("full paper"), JStr("short paper")}
        {
          PaperRowsMembers(last, r);
        }
      }
    }
  }

  /** A row of a paper comes from a full or short paper and one of its authors. */
  lemma PaperRowsMembers(paper: Json, r: Row)
    requires r in PaperRows(paper).rows
    ensures Subscript(paper, "paper_type").Success? && Accepted(Subscript(paper, "paper_type").value)
    ensures exists j :: 0 <= j < |AuthorsOf(paper)| && RowOf(paper, AuthorsOf(paper)[j]) == Success(r)
  {
    match AuthorFieldOf(paper)
    case Failure(_) =>
    case Success(field) =>
      assert AuthorsOf(paper) == field.Items();
      match field
      case Single(a) =>
        assert AuthorsOf(paper)[0] == a;
      case Many(xs) => AuthorRowsMembers(paper, xs, r);
  }

  /** A row made for a list of authors is the row of one of them. */
  lemma {:induction false} AuthorRowsMembers(paper: Json, authors: seq<Json>, r: Row)
    requires r in AuthorRows(paper, authors).rows
    ensures exists j :: 0 <= j < |authors| && RowOf(paper, authors[j]) == Success(r)
  {
    if authors != [] {
      var init := authors[..|authors| - 1];
      if r in AuthorRows(paper, init).rows {
        AuthorRowsMembers(paper, init, r);
        var j :| 0 <= j < |init| && RowOf(paper, init[j]) == Success(r);
        assert init[j] == authors[j];
      } else {
        assert RowOf(paper, authors[|authors| - 1]) == Success(r);
      }
    }
  }

  // ---------------------------------------------------------------- the whole run

  /** A run prints a table exactly when the input holds a non-empty paper list
      whose types are all hashable and whose papers all convert. */
  lemma PipelineSucceedsIff(raw: Json)
    ensures Pipeline(raw).Success? <==>
      && PaperList(raw).Success?
      && (forall i :: 0 <= i < |PaperList(raw).value| ==> TypeKey(PaperList(raw).value[i]).Success?)
      && (forall i :: 0 <= i < |PaperList(raw).value| ==> Convertible(PaperList(raw).value[i]))
  {
    if PaperList(raw).Success? {
      CensusSucceedsIff(PaperList(raw).value);
      ConvertSucceedsIff(PaperList(raw).value);
    }
  }

  /** The printed table is the header followed by one line per expected row,
      every line 31 cells wide. */
  lemma PipelineTable(raw: Json)
    requires Pipeline(raw).Success?
    ensures PaperList(raw).Success?
    ensures var table := Pipeline(raw).value;
      && |table| == 1 + ExpectedRowCount(PaperList(raw).value)
      && table[0] == Header(OutFields)
      && forall l :: 0 <= l < |table| ==> |table[l]| == 31
  {
    ConvertRowCount(PaperList(raw).value);
  }

  /** Data line `1 + ExpectedRowCount(papers[..i]) + j` of a table printed for
      `papers` is the line rendered for author j of paper i. */
  lemma TableLine(papers: seq<Json>, i: nat, j: nat)
    requires ConvertRows(papers).failure == None
    requires i < |papers| && j < |AuthorsOf(papers[i])|
    ensures var table := [Header(OutFields)] + RenderRows(OutFields, ConvertRows(papers).rows);
      && 1 + ExpectedRowCount(papers[..i]) + j < |table|
      && RowOf(papers[i], AuthorsOf(papers[i])[j]).Success?
      && table[1 + ExpectedRowCount(papers[..i]) + j]
         == RenderRow(OutFields, RowOf(papers[i], AuthorsOf(papers[i])[j]).value)
  {
    ConvertRowOrder(papers, i, j);
  }

  /** Data line `1 + ExpectedRowCount(papers[..i]) + j` of the printed table is
      the line rendered for author j of paper i. */
  lemma PipelineLine(raw: Json, papers: seq<Json>, i: nat, j: nat)
    requires PaperList(raw) == Success(papers) && Pipeline(raw).Success?
    requires i < |papers| && j < |AuthorsOf(papers[i])|
    ensures 1 + ExpectedRowCount(papers[..i]) + j < |Pipeline(raw).value|
    ensures RowOf(papers[i], AuthorsOf(papers[i])[j]).Success?
    ensures Pipeline(raw).value[1 + ExpectedRowCount(papers[..i]) + j]
         == RenderRow(OutFields, RowOf(papers[i], AuthorsOf(papers[i])[j]).value)
  {
    PipelineValue(raw);
    TableLine(papers, i, j);
  }

  /** A run that prints a table prints the header and the rendered rows of
      its paper list. */
  lemma PipelineValue(raw: Json)
    requires Pipeline(raw).Success?
    ensures PaperList(raw).Success?
    ensures ConvertRows(PaperList(raw).value).failure == None
    ensures Pipeline(raw).value
         == [Header(OutFields)] + RenderRows(OutFields, ConvertRows(PaperList(raw).value).rows)
  {
  }
}
