/** The EasyChair-to-ACM converter: an EasyChair e-rights export (already
    parsed) becomes the rows of the ACM proceedings CSV, one row per author
    of every full or short paper. The pure functions here say what each stage
    produces; the class `Converter` performs the stages step by step on its
    fields and is proved to agree with them. */
module EasychairAcm {
  import opened PyJson

  /** Every dict key the converter uses for a CSV row: the 31 columns of
      `out_fields` and the three keys `Add_Author` writes that are not columns.
      `Name` gives each one's spelling. */
  datatype Key =
    | ProceedingId | TrackingNumber | PaperType | TheTitle
    | Prefix | FirstName | MiddleName | LastName | Suffix
    | AuthorSequenceNo | ContactAuthor | AcmProfileId | AcmClientNo
    | Orcid | Email | DepartmentSchoolLab | Institution
    | City | StateProvince | Country | SecondaryDepartmentSchoolLab
    | SecondaryInstitution | SecondaryCity | SecondaryStateProvince
    | SecondaryCountry | SectionTitle | SectionSeqNo
    | PublishedArticleNumber | StartPage | EndPage | ArticleSeqNo
    | First | Middle | Last
  {
    function Name(): string
    {
      match this
      case ProceedingId => "proceedingID"
      case TrackingNumber => "event_tracking_number/theirnumber"
      case PaperType => "paper_type"
      case TheTitle => "theTitle"
      case Prefix => "prefix"
      case FirstName => "first_name"
      case MiddleName => "middle_name"
      case LastName => "last_name"
      case Suffix => "suffix"
      case AuthorSequenceNo => "author_sequence_no"
      case ContactAuthor => "contact_author"
      case AcmProfileId => "ACM_profile_id"
      case AcmClientNo => "ACM_client_no"
      case Orcid => "orcid"
      case Email => "email"
      case DepartmentSchoolLab => "department_school_lab"
      case Institution => "institution / AFFILIATION"
      case City => "city"
      case StateProvince => "state_province"
      case Country => "country"
      case SecondaryDepartmentSchoolLab => "secondary_department_school_lab"
      case SecondaryInstitution => "secondary_institution"
      case SecondaryCity => "secondary_city"
      case SecondaryStateProvince => "secondary_state_province"
      case SecondaryCountry => "secondary_country"
      case SectionTitle => "section_title"
      case SectionSeqNo => "section_seq_no"
      case PublishedArticleNumber => "published_article_number"
      case StartPage => "start_page"
      case EndPage => "end_page"
      case ArticleSeqNo => "article_seq_no"
      case First => "first"
      case Middle => "middle"
      case Last => "last"
    }
  }

  /** One output record as `Add_Author` builds it: key to the value stored. */
  type Row = map<Key, Json>

  /** `out_fields`: the 31 CSV columns, in output order. */
  const OutFields: seq<Key> := [
    ProceedingId, TrackingNumber, PaperType, TheTitle,
    Prefix, FirstName, MiddleName, LastName, Suffix,
    AuthorSequenceNo, ContactAuthor, AcmProfileId, AcmClientNo,
    Orcid, Email, DepartmentSchoolLab, Institution,
    City, StateProvince, Country, SecondaryDepartmentSchoolLab,
    SecondaryInstitution, SecondaryCity, SecondaryStateProvince,
    SecondaryCountry, SectionTitle, SectionSeqNo,
    PublishedArticleNumber, StartPage, EndPage, ArticleSeqNo]

  /** The keys of every row `Add_Author` builds. */
  const RowKeys: set<Key> := {
    TrackingNumber, PaperType, TheTitle, Prefix, First, Middle, Last, Suffix,
    AuthorSequenceNo, ContactAuthor, Orcid, Email, Institution, Country,
    StartPage, ArticleSeqNo}

  // ---------------------------------------------------------------- Load

  /** `rawinput['erights_record']['paper']`, which must be a non-empty list;
      otherwise the run ends with exit code 1. */
  function PaperList(raw: Json): (r: Result<seq<Json>>)
    ensures r.Success? ==> |r.value| >= 1
    ensures r.Success? <==>
      && raw.JObject? && "erights_record" in raw.fields
      && raw.fields["erights_record"].JObject? && "paper" in raw.fields["erights_record"].fields
      && raw.fields["erights_record"].fields["paper"].JList?
      && |raw.fields["erights_record"].fields["paper"].items| >= 1
    ensures (&& raw.JObject? && "erights_record" in raw.fields
             && raw.fields["erights_record"].JObject? && "paper" in raw.fields["erights_record"].fields
             && r.Failure?)
            ==> r.error == SystemExit(1)
  {
    var record :- Subscript(raw, "erights_record");
    var papers :- Subscript(record, "paper");
    if !papers.JList? || |papers.items| <= 0 then Failure(SystemExit(1))
    else Success(papers.items)
  }

  /** `Counter[t]`: a key never counted reads as 0. */
  function Count(counter: map<Json, nat>, t: Json): nat
  {
    if t in counter then counter[t] else 0
  }

  /** `paper['paper_type']`, which must also be hashable to go into the set `{...}`. */
  function TypeKey(paper: Json): Result<Json>
  {
    var t :- Subscript(paper, "paper_type");
    if IsHashable(t) then Success(t) else Failure(TypeError)
  }

  /** A counter built so far and the exception that stopped it, if any. */
  datatype Tally = Tally(counts: map<Json, nat>, failure: Option<Error>)

  /** The `Counter` of paper types after `types.update({paper['paper_type']})`
      for each paper in turn; it stops at the first paper that raises. */
  function Census(papers: seq<Json>): Tally
  {
    if papers == [] then Tally(map[], None)
    else
      var before := Census(papers[..|papers| - 1]);
      if before.failure.Some? then before
      else match TypeKey(papers[|papers| - 1])
        case Failure(e) => Tally(before.counts, Some(e))
        case Success(t) => Tally(before.counts[t := Count(before.counts, t) + 1], None)
  }

  /** Once a paper has raised, later papers change nothing. */
  lemma {:induction false} CensusStops(papers: seq<Json>, k: nat)
    requires k <= |papers|
    requires Census(papers[..k]).failure.Some?
    ensures Census(papers) == Census(papers[..k])
    decreases |papers|
  {
    if k < |papers| {
      var init := papers[..|papers| - 1];
      assert init[..k] == papers[..k];
      CensusStops(init, k);
    } else {
      assert papers[..k] == papers;
    }
  }

  // ---------------------------------------------------------------- Add_Author

  /** The left operand of `x.lower in ('y', 'yes')`: reading the attribute without
      calling it yields a bound method, never a string. */
  datatype Operand = Text(s: string) | BoundMethod(receiver: string, name: string)

  /** The contact flag as the membership test at line 97 computes it. */
  function ContactFlag(contact: string): (flag: string)
    ensures flag == "no"
  {
    var operand := BoundMethod(contact, "lower");
    if operand in [Text("y"), Text("yes")] then "yes" else "no"
  }

  /** The dict `Add_Author` fills in, once none of its steps has raised. */
  function AuthorRecord(p: map<string, Json>, a: map<string, Json>, paperType: string,
                        contact: string, affiliations: map<string, Json>): Row
  {
    map[
      TrackingNumber := JStr(PyStr(GetOr(p, "event_tracking_number", JStr("")))),
      PaperType := JStr(AsciiLower(paperType)),
      TheTitle := GetOr(p, "paper_title", JStr("")),
      Prefix := GetOr(a, "prefix", JStr("")),
      First := GetOr(a, "first_name", JStr("")),
      Middle := GetOr(a, "middle_name", JStr("")),
      Last := GetOr(a, "last_name", JStr("")),
      Suffix := GetOr(a, "suffix", JStr("")),
      AuthorSequenceNo := GetOr(a, "sequence_no", JStr("0")),
      ContactAuthor := JStr(ContactFlag(contact)),
      Orcid := GetOr(a, "ORCID", JStr("")),
      Email := GetOr(a, "email_address", JStr("")),
      Institution := GetOr(affiliations, "affiliation", JStr("")),
      Country := GetOr(a, "country", JStr("")),
      StartPage := JStr("1"),
      ArticleSeqNo := GetOr(p, "sequence_no", JStr(""))]
  }

  /** The row `Add_Author(paper, author)` appends, or the exception it raises first. */
  function RowOf(paper: Json, author: Json): (r: Result<Row>)
    ensures r.Success? <==>
      && paper.JObject? && GetOr(paper.fields, "paper_type", JStr("")).JStr?
      && author.JObject? && "contact_author" in author.fields
      && author.fields["contact_author"].JStr?
      && GetOr(author.fields, "affiliations", JObject(map[])).JObject?
    ensures paper.JObject? && GetOr(paper.fields, "paper_type", JStr("")).JStr? && author.JObject?
            && "contact_author" !in author.fields
            ==> r == Failure(AttributeError("lower"))
  {
    if !paper.JObject? then Failure(AttributeError("get"))
    else
      var p := paper.fields;
      var paperType := GetOr(p, "paper_type", JStr(""));
      if !paperType.JStr? then Failure(AttributeError("lower"))
      else if !author.JObject? then Failure(AttributeError("get"))
      else
        var a := author.fields;
        var contact := GetOr(a, "contact_author", JNull);
        if !contact.JStr? then Failure(AttributeError("lower"))
        else
          var affiliations := GetOr(a, "affiliations", JObject(map[]));
          if !affiliations.JObject? then Failure(AttributeError("get"))
          else Success(AuthorRecord(p, a, paperType.s, contact.s, affiliations.fields))
  }

  // ---------------------------------------------------------------- Convert

  /** The only paper types that produce rows. */
  predicate Accepted(paperType: Json)
  {
    paperType == JStr("Full Paper") || paperType == JStr("Short Paper")
  }

  /** `paper['authors']['author']`: a single dict, or anything iterable. */
  datatype AuthorField = Single(author: Json) | Many(authors: seq<Json>)
  {
    /** The authors in the order rows are made for them. */
    function Items(): seq<Json>
    {
      match this
      case Single(a) => [a]
      case Many(xs) => xs
    }
  }

  /** `paper['authors']['author']`, then a dict or the items a `for` loop visits. */
  function AuthorFieldOf(paper: Json): Result<AuthorField>
  {
    var authors :- Subscript(paper, "authors");
    var field :- Subscript(authors, "author");
    if field.JObject? then Success(Single(field))
    else
      var items :- Iterate(field);
      Success(Many(items))
  }

  /** Rows appended so far and the exception that stopped the run, if any. */
  datatype Progress = Progress(rows: seq<Row>, failure: Option<Error>)

  /** The rows `Add_Author` appends for `authors` in turn, stopping at the first
      one that raises. */
  function AuthorRows(paper: Json, authors: seq<Json>): Progress
  {
    if authors == [] then Progress([], None)
    else
      var before := AuthorRows(paper, authors[..|authors| - 1]);
      if before.failure.Some? then before
      else match RowOf(paper, authors[|authors| - 1])
        case Success(row) => Progress(before.rows + [row], None)
        case Failure(e) => Progress(before.rows, Some(e))
  }

  /** One iteration of the loop in `Convert`. */
  function PaperRows(paper: Json): Progress
  {
    match Subscript(paper, "paper_type")
    case Failure(e) => Progress([], Some(e))
    case Success(t) =>
      if !Accepted(t) then Progress([], None)
      else match AuthorFieldOf(paper)
        case Failure(e) => Progress([], Some(e))
        case Success(Single(a)) =>
          (match RowOf(paper, a)
           case Success(row) => Progress([row], None)
           case Failure(e) => Progress([], Some(e)))
        case Success(Many(xs)) => AuthorRows(paper, xs)
  }

  /** The rows `Convert` appends for `papers`, stopping at the first paper that raises. */
  function ConvertRows(papers: seq<Json>): Progress
  {
    if papers == [] then Progress([], None)
    else
      var before := ConvertRows(papers[..|papers| - 1]);
      if before.failure.Some? then before
      else
        var last := PaperRows(papers[|papers| - 1]);
        Progress(before.rows + last.rows, last.failure)
  }

  /** One more author, while nothing has raised yet. */
  lemma AuthorRowsStep(paper: Json, authors: seq<Json>, j: nat)
    requires j < |authors|
    requires AuthorRows(paper, authors[..j]).failure == None
    ensures AuthorRows(paper, authors[..j + 1]) ==
      match RowOf(paper, authors[j])
      case Success(row) => Progress(AuthorRows(paper, authors[..j]).rows + [row], None)
      case Failure(e) => Progress(AuthorRows(paper, authors[..j]).rows, Some(e))
  {
    assert authors[..j + 1][..j] == authors[..j];
  }

  /** One more paper, while nothing has raised yet. */
  lemma ConvertRowsStep(papers: seq<Json>, i: nat)
    requires i < |papers|
    requires ConvertRows(papers[..i]).failure == None
    ensures ConvertRows(papers[..i + 1]) ==
      Progress(ConvertRows(papers[..i]).rows + PaperRows(papers[i]).rows, PaperRows(papers[i]).failure)
  {
    assert papers[..i + 1][..i] == papers[..i];
  }

  /** Appending to a sequence in two steps or in one. */
  lemma AppendAssoc<T>(a: seq<T>, b: seq<T>, c: seq<T>)
    ensures a + b + c == a + (b + c)
  {
  }

  /** Once an author has raised, later authors change nothing. */
  lemma {:induction false} AuthorRowsStops(paper: Json, authors: seq<Json>, k: nat)
    requires k <= |authors|
    requires AuthorRows(paper, authors[..k]).failure.Some?
    ensures AuthorRows(paper, authors) == AuthorRows(paper, authors[..k])
    decreases |authors|
  {
    if k < |authors| {
      var init := authors[..|authors| - 1];
      assert init[..k] == authors[..k];
      AuthorRowsStops(paper, init, k);
    } else {
      assert authors[..k] == authors;
    }
  }

  /** Once a paper has raised, later papers change nothing. */
  lemma {:induction false} ConvertRowsStops(papers: seq<Json>, k: nat)
    requires k <= |papers|
    requires ConvertRows(papers[..k]).failure.Some?
    ensures ConvertRows(papers) == ConvertRows(papers[..k])
    decreases |papers|
  {
    if k < |papers| {
      var init := papers[..|papers| - 1];
      assert init[..k] == papers[..k];
      ConvertRowsStops(init, k);
    } else {
      assert papers[..k] == papers;
    }
  }

  // ---------------------------------------------------------------- Print

  /** `row.get(f)` */
  function Lookup(row: Row, f: Key): Option<Json>
  {
    if f in row then Some(row[f]) else None
  }

  /** How `csv.writer` writes one field: None as the empty string, anything else by `str()`. */
  function Cell(v: Option<Json>): string
  {
    match v
    case None => ""
    case Some(JNull) => ""
    case Some(x) => PyStr(x)
  }

  /** The data line written for `row`: `[row.get(f) for f in fields]`. */
  function RenderRow(fields: seq<Key>, row: Row): (line: seq<string>)
    ensures |line| == |fields|
    ensures forall k :: 0 <= k < |fields| && fields[k] !in row ==> line[k] == ""
    ensures forall k :: 0 <= k < |fields| && fields[k] in row && row[fields[k]].JStr? ==> line[k] == row[fields[k]].s
  {
    seq(|fields|, k requires 0 <= k < |fields| => Cell(Lookup(row, fields[k])))
  }

  /** The header line: the spelling of each column. */
  function Header(fields: seq<Key>): (line: seq<string>)
    ensures |line| == |fields|
    ensures forall k :: 0 <= k < |fields| ==> line[k] == fields[k].Name()
  {
    seq(|fields|, k requires 0 <= k < |fields| => fields[k].Name())
  }

  /** The data lines, one per row. */
  function RenderRows(fields: seq<Key>, rows: seq<Row>): (lines: seq<seq<string>>)
    ensures |lines| == |rows|
    ensures forall i :: 0 <= i < |rows| ==> lines[i] == RenderRow(fields, rows[i])
  {
    seq(|rows|, i requires 0 <= i < |rows| => RenderRow(fields, rows[i]))
  }

  // ---------------------------------------------------------------- the whole run

  /** What one run prints (header first), or the exception that ends it before
      anything is printed. */
  function Pipeline(raw: Json): Result<seq<seq<string>>>
  {
    var papers :- PaperList(raw);
    var census := Census(papers);
    if census.failure.Some? then Failure(census.failure.value)
    else
      var converted := ConvertRows(papers);
      if converted.failure.Some? then Failure(converted.failure.value)
      else Success([Header(OutFields)] + RenderRows(OutFields, converted.rows))
  }

  /** The converter object (`ACM_Convert`). Command-line parsing and file reading
      are not modelled: `Load` receives the parsed document. */
  class Converter {
    var rawinput: Json
    var outFields: seq<Key>
    var outCsv: seq<Row>
    var papers: seq<Json>
    var types: map<Json, nat>

    constructor ()
      ensures rawinput == JNull && outFields == [] && outCsv == []
      ensures papers == [] && types == map[]
    {
      rawinput := JNull;
      outFields := [];
      outCsv := [];
      papers := [];
      types := map[];
    }

    /** The column list and an empty accumulator. */
    method Setup()
      modifies this`outFields, this`outCsv
      ensures outFields == OutFields && |outFields| == 31
      ensures outCsv == []
    {
      outFields := OutFields;
      outCsv := [];
    }

    /** Takes the paper list out of the document and tallies the paper types. */
    method Load(raw: Json) returns (err: Option<Error>)
      modifies this`rawinput, this`papers, this`types
      ensures rawinput == raw
      ensures PaperList(raw).Failure? ==>
        err == Some(PaperList(raw).error) && papers == old(papers) && types == old(types)
      ensures PaperList(raw).Success? ==>
        && papers == PaperList(raw).value
        && types == Census(papers).counts
        && err == Census(papers).failure
    {
      rawinput := raw;
      var list := PaperList(raw);
      if list.Failure? {
        return Some(list.error);
      }
      papers := list.value;
      types := map[];
      var i := 0;
      while i < |papers|
        invariant 0 <= i <= |papers|
        invariant papers == list.value && rawinput == raw
        invariant Census(papers[..i]) == Tally(types, None)
      {
        assert papers[..i + 1][..i] == papers[..i];
        var t := TypeKey(papers[i]);
        if t.Failure? {
          CensusStops(papers, i + 1);
          return Some(t.error);
        }
        types := types[t.value := Count(types, t.value) + 1];
        i := i + 1;
      }
      assert papers[..i] == papers;
      err := None;
    }

    /** Builds one row key by key and appends it; on an exception nothing is appended. */
    method AddAuthor(paper: Json, author: Json) returns (err: Option<Error>)
      modifies this`outCsv
      ensures RowOf(paper, author).Success? ==>
        outCsv == old(outCsv) + [RowOf(paper, author).value] && err == None
      ensures RowOf(paper, author).Failure? ==>
        outCsv == old(outCsv) && err == Some(RowOf(paper, author).error)
    {
      if !paper.JObject? {
        return Some(AttributeError("get"));
      }
      var p := paper.fields;
      var out: Row := map[];
      out := out[TrackingNumber := JStr(PyStr(GetOr(p, "event_tracking_number", JStr(""))))];
      var paperType := GetOr(p, "paper_type", JStr(""));
      if !paperType.JStr? {
        return Some(AttributeError("lower"));
      }
      out := out[PaperType := JStr(AsciiLower(paperType.s))];
      out := out[TheTitle := GetOr(p, "paper_title", JStr(""))];
      if !author.JObject? {
        return Some(AttributeError("get"));
      }
      var a := author.fields;
      out := out[Prefix := GetOr(a, "prefix", JStr(""))];
      out := out[First := GetOr(a, "first_name", JStr(""))];
      out := out[Middle := GetOr(a, "middle_name", JStr(""))];
      out := out[Last := GetOr(a, "last_name", JStr(""))];
      out := out[Suffix := GetOr(a, "suffix", JStr(""))];
      out := out[AuthorSequenceNo := GetOr(a, "sequence_no", JStr("0"))];
      var contact := GetOr(a, "contact_author", JNull);
      if !contact.JStr? {
        return Some(AttributeError("lower"));
      }
      out := out[ContactAuthor := JStr(ContactFlag(contact.s))];
      out := out[Orcid := GetOr(a, "ORCID", JStr(""))];
      out := out[Email := GetOr(a, "email_address", JStr(""))];
      var affiliations := GetOr(a, "affiliations", JObject(map[]));
      if !affiliations.JObject? {
        return Some(AttributeError("get"));
      }
      out := out[Institution := GetOr(affiliations.fields, "affiliation", JStr(""))];
      out := out[Country := GetOr(a, "country", JStr(""))];
      out := out[StartPage := JStr("1")];
      out := out[ArticleSeqNo := GetOr(p, "sequence_no", JStr(""))];
      outCsv := outCsv + [out];
      err := None;
    }

    /** One pass of the loop in `Convert`: skips a paper of another type, else
        appends one row per author. */
    method ConvertPaper(paper: Json) returns (err: Option<Error>)
      modifies this`outCsv
      ensures outCsv == old(outCsv) + PaperRows(paper).rows
      ensures err == PaperRows(paper).failure
    {
      var paperType := Subscript(paper, "paper_type");
      if paperType.Failure? {
        return Some(paperType.error);
      }
      if !Accepted(paperType.value) {
        return None;
      }
      var field := AuthorFieldOf(paper);
      if field.Failure? {
        return Some(field.error);
      }
      match field.value {
        case Single(author) =>
          err := AddAuthor(paper, author);
        case Many(authors) =>
          var j := 0;
          while j < |authors|
            invariant 0 <= j <= |authors|
            invariant outCsv == old(outCsv) + AuthorRows(paper, authors[..j]).rows
            invariant AuthorRows(paper, authors[..j]).failure == None
          {
            AuthorRowsStep(paper, authors, j);
            err := AddAuthor(paper, authors[j]);
            if err.Some? {
              AuthorRowsStops(paper, authors, j + 1);
              return;
            }
            j := j + 1;
          }
          assert authors[..j] == authors;
          err := None;
      }
    }

    /** Appends the rows of every full or short paper, one per author, in paper
        order and then author order. */
    method Convert() returns (err: Option<Error>)
      modifies this`outCsv
      ensures outCsv == old(outCsv) + ConvertRows(papers).rows
      ensures err == ConvertRows(papers).failure
    {
      var ps := papers;
      var i := 0;
      while i < |ps|
        invariant 0 <= i <= |ps|
        invariant outCsv == old(outCsv) + ConvertRows(ps[..i]).rows
        invariant ConvertRows(ps[..i]).failure == None
      {
        ConvertRowsStep(ps, i);
        AppendAssoc(old(outCsv), ConvertRows(ps[..i]).rows, PaperRows(ps[i]).rows);
        err := ConvertPaper(ps[i]);
        if err.Some? {
          ConvertRowsStops(ps, i + 1);
          assert papers == ps;
          return;
        }
        i := i + 1;
      }
      assert ps[..i] == ps;
      err := None;
    }

    /** The lines `Print` writes: the header, then one line per accumulated row. */
    method Print() returns (lines: seq<seq<string>>)
      ensures |lines| == |outCsv| + 1
      ensures lines == [Header(outFields)] + RenderRows(outFields, outCsv)
    {
      lines := [Header(outFields)];
      var i := 0;
      while i < |outCsv|
        invariant 0 <= i <= |outCsv|
        invariant lines == [Header(outFields)] + RenderRows(outFields, outCsv[..i])
      {
        lines := lines + [RenderRow(outFields, outCsv[i])];
        i := i + 1;
      }
      assert outCsv[..i] == outCsv;
    }
  }

  /** The main block: Setup, Load, Convert, Print. An exception at any stage
      ends the run before Print, so nothing is written. */
  method RunConverter(raw: Json) returns (output: Result<seq<seq<string>>>)
    ensures output == Pipeline(raw)
  {
    var me := new Converter();
    me.Setup();
    var err := me.Load(raw);
    if err.Some? {
      return Failure(err.value);
    }
    err := me.Convert();
    if err.Some? {
      return Failure(err.value);
    }
    var lines := me.Print();
    assert me.outCsv == ConvertRows(me.papers).rows;
    return Success(lines);
  }
}
