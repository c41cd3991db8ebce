/** The CSV line printed for each author row: which of the 31 columns carry
    a value and which stay empty. */
module EasychairAcmColumns {
  import opened PyJson
  import opened EasychairAcm
  import opened EasychairAcmProperties

  /** The value `csv.writer` receives for column `key` of the row built for an
      author `a` of a paper `p` (None: the row has no such key), given the paper
      type `t` and the affiliations dict `aff`. The three name columns, like
      every column `Add_Author` does not fill, receive None; the contact flag is
      always "no"; the start page is always "1". This restates `AuthorRecord`
      one key at a time, and `RecordColumn` proves the two agree on every key but
      the three name keys: a match on a single key keeps each column's proof
      small, where a lookup in the 16-entry map display does not. */
  function ColumnValue(key: Key, p: map<string, Json>, a: map<string, Json>, t: string,
                       aff: map<string, Json>): Option<Json>
  {
    if key !in RowKeys then None
    else match key
    case TrackingNumber => Some(JStr(PyStr(GetOr(p, "event_tracking_number", JStr("")))))
    case PaperType => Some(JStr(AsciiLower(t)))
    case TheTitle => Some(GetOr(p, "paper_title", JStr("")))
    case Prefix => Some(GetOr(a, "prefix", JStr("")))
    case Suffix => Some(GetOr(a, "suffix", JStr("")))
    case AuthorSequenceNo => Some(GetOr(a, "sequence_no", JStr("0")))
    case ContactAuthor => Some(JStr("no"))
    case Orcid => Some(GetOr(a, "ORCID", JStr("")))
    case Email => Some(GetOr(a, "email_address", JStr("")))
    case Institution => Some(GetOr(aff, "affiliation", JStr("")))
    case Country => Some(GetOr(a, "country", JStr("")))
    case StartPage => Some(JStr("1"))
    case ArticleSeqNo => Some(GetOr(p, "sequence_no", JStr("")))
    case _ => None
  }

  /** The tracking number, paper type and title columns. */
  lemma PaperColumns(p: map<string, Json>, a: map<string, Json>, t: string, c: string,
                     aff: map<string, Json>, key: Key)
    requires key.TrackingNumber? || key.PaperType? || key.TheTitle?
    ensures Lookup(AuthorRecord(p, a, t, c, aff), key) == ColumnValue(key, p, a, t, aff)
  {
  }

  /** The start page and article sequence number columns. */
  lemma ArticleColumns(p: map<string, Json>, a: map<string, Json>, t: string, c: string,
                       aff: map<string, Json>, key: Key)
    requires key.StartPage? || key.ArticleSeqNo?
    ensures Lookup(AuthorRecord(p, a, t, c, aff), key) == ColumnValue(key, p, a, t, aff)
  {
  }

  /** The prefix, suffix and author sequence number columns. */
  lemma AuthorNameColumns(p: map<string, Json>, a: map<string, Json>, t: string, c: string,
                          aff: map<string, Json>, key: Key)
    requires key.Prefix? || key.Suffix? || key.AuthorSequenceNo?
    ensures Lookup(AuthorRecord(p, a, t, c, aff), key) == ColumnValue(key, p, a, t, aff)
  {
  }

  /** The contact flag, ORCID and email columns. */
  lemma AuthorContactColumns(p: map<string, Json>, a: map<string, Json>, t: string, c: string,
                             aff: map<string, Json>, key: Key)
    requires key.ContactAuthor? || key.Orcid? || key.Email?
    ensures Lookup(AuthorRecord(p, a, t, c, aff), key) == ColumnValue(key, p, a, t, aff)
  {
  }

  /** The institution and country columns. */
  lemma AuthorPlaceColumns(p: map<string, Json>, a: map<string, Json>, t: string, c: string,
                           aff: map<string, Json>, key: Key)
    requires key.Institution? || key.Country?
    ensures Lookup(AuthorRecord(p, a, t, c, aff), key) == ColumnValue(key, p, a, t, aff)
  {
  }

  /** A column whose key `Add_Author` never writes is None in the row. */
  lemma UnfilledColumns(p: map<string, Json>, a: map<string, Json>, t: string, c: string,
                        aff: map<string, Json>, key: Key)
    requires key !in RowKeys
    ensures Lookup(AuthorRecord(p, a, t, c, aff), key) == None
    ensures ColumnValue(key, p, a, t, aff) == None
  {
  }

  /** Every column reads from the record what `ColumnValue` states. */
  lemma RecordColumn(p: map<string, Json>, a: map<string, Json>, t: string, c: string,
                     aff: map<string, Json>, key: Key)
    requires key != First && key != Middle && key != Last
    ensures Lookup(AuthorRecord(p, a, t, c, aff), key) == ColumnValue(key, p, a, t, aff)
  {
    if key.TrackingNumber? || key.PaperType? || key.TheTitle? {
      PaperColumns(p, a, t, c, aff, key);
    } else if key.StartPage? || key.ArticleSeqNo? {
      ArticleColumns(p, a, t, c, aff, key);
    } else if key.Prefix? || key.Suffix? || key.AuthorSequenceNo? {
      AuthorNameColumns(p, a, t, c, aff, key);
    } else if key.ContactAuthor? || key.Orcid? || key.Email? {
      AuthorContactColumns(p, a, t, c, aff, key);
    } else if key.Institution? || key.Country? {
      AuthorPlaceColumns(p, a, t, c, aff, key);
    } else {
      UnfilledColumns(p, a, t, c, aff, key);
    }
  }

  /** The keys `Add_Author` writes for the author's names are none of the columns,
      which spell them `first_name`, `middle_name` and `last_name`. */
  lemma NameKeysNotColumns()
    ensures forall k :: k in OutFields ==> !k.First? && !k.Middle? && !k.Last?
    ensures forall k :: 0 <= k < |OutFields| ==> Header(OutFields)[k] !in {"first", "middle", "last"}
  {
    forall k | 0 <= k < |OutFields| ensures Header(OutFields)[k] !in {"first", "middle", "last"} {
      NotNameKey(OutFields[k]);
    }
  }

  /** Only the three name keys are spelled "first", "middle" or "last". */
  lemma NotNameKey(key: Key)
    requires !key.First? && !key.Middle? && !key.Last?
    ensures key.Name() !in {"first", "middle", "last"}
  {
  }

  /** The header line spells the columns exactly as `out_fields` lists them. */
  lemma HeaderSpelling()
    ensures Header(OutFields) ==
      ["proceedingID", "event_tracking_number/theirnumber", "paper_type", "theTitle"] +
      ["prefix", "first_name", "middle_name", "last_name"] +
      ["suffix", "author_sequence_no", "contact_author", "ACM_profile_id"] +
      ["ACM_client_no", "orcid", "email", "department_school_lab"] +
      ["institution / AFFILIATION", "city", "state_province", "country"] +
      ["secondary_department_school_lab", "secondary_institution", "secondary_city", "secondary_state_province"] +
      ["secondary_country", "section_title", "section_seq_no", "published_article_number"] +
      ["start_page", "end_page", "article_seq_no"]
  {
    var g0, g1 := [ProceedingId, TrackingNumber, PaperType, TheTitle], [Prefix, FirstName, MiddleName, LastName];
    var g2, g3 := [Suffix, AuthorSequenceNo, ContactAuthor, AcmProfileId], [AcmClientNo, Orcid, Email, DepartmentSchoolLab];
    var g4, g5 := [Institution, City, StateProvince, Country], [SecondaryDepartmentSchoolLab, SecondaryInstitution, SecondaryCity, SecondaryStateProvince];
    var g6, g7 := [SecondaryCountry, SectionTitle, SectionSeqNo, PublishedArticleNumber], [StartPage, EndPage, ArticleSeqNo];
    assert OutFields == g0 + g1 + g2 + g3 + g4 + g5 + g6 + g7;
    // Peel the groups off the end, one at a time.
    HeaderAppend(g0 + g1 + g2 + g3 + g4 + g5 + g6, g7);
    HeaderAppend(g0 + g1 + g2 + g3 + g4 + g5, g6);
    HeaderAppend(g0 + g1 + g2 + g3 + g4, g5);
    HeaderAppend(g0 + g1 + g2 + g3, g4);
    HeaderAppend(g0 + g1 + g2, g3);
    HeaderAppend(g0 + g1, g2);
    HeaderAppend(g0, g1);
    HeaderGroup0(); HeaderGroup1(); HeaderGroup2(); HeaderGroup3();
    HeaderGroup4(); HeaderGroup5(); HeaderGroup6(); HeaderGroup7();
  }

  /** The header of two column lists one after the other. */
  lemma HeaderAppend(a: seq<Key>, b: seq<Key>)
    ensures Header(a + b) == Header(a) + Header(b)
  {
  }

  // The header spelled four columns at a time.

  lemma HeaderGroup0()
    ensures Header([ProceedingId, TrackingNumber, PaperType, TheTitle])
         == ["proceedingID", "event_tracking_number/theirnumber", "paper_type", "theTitle"]
  {
  }

  lemma HeaderGroup1()
    ensures Header([Prefix, FirstName, MiddleName, LastName])
         == ["prefix", "first_name", "middle_name", "last_name"]
  {
  }

  lemma HeaderGroup2()
    ensures Header([Suffix, AuthorSequenceNo, ContactAuthor, AcmProfileId])
         == ["suffix", "author_sequence_no", "contact_author", "ACM_profile_id"]
  {
  }

  lemma HeaderGroup3()
    ensures Header([AcmClientNo, Orcid, Email, DepartmentSchoolLab])
         == ["ACM_client_no", "orcid", "email", "department_school_lab"]
  {
  }

  lemma HeaderGroup4()
    ensures Header([Institution, City, StateProvince, Country])
         == ["institution / AFFILIATION", "city", "state_province", "country"]
  {
  }

  lemma HeaderGroup5()
    ensures Header([SecondaryDepartmentSchoolLab, SecondaryInstitution, SecondaryCity, SecondaryStateProvince])
         == ["secondary_department_school_lab", "secondary_institution", "secondary_city", "secondary_state_province"]
  {
  }

  lemma HeaderGroup6()
    ensures Header([SecondaryCountry, SectionTitle, SectionSeqNo, PublishedArticleNumber])
         == ["secondary_country", "section_title", "section_seq_no", "published_article_number"]
  {
  }

  lemma HeaderGroup7()
    ensures Header([StartPage, EndPage, ArticleSeqNo])
         == ["start_page", "end_page", "article_seq_no"]
  {
  }

  /** The CSV line printed for the row of `author` on `paper`: 31 cells, each
      the value `ColumnValue` states for its column. */
  lemma PrintedAuthorRow(paper: Json, author: Json)
    requires RowOf(paper, author).Success?
    ensures paper.JObject? && author.JObject?
    ensures var p, a := paper.fields, author.fields;
      var t, aff := GetOr(p, "paper_type", JStr("")).s, GetOr(a, "affiliations", JObject(map[])).fields;
      var line := RenderRow(OutFields, RowOf(paper, author).value);
      && |line| == 31
      && forall k :: 0 <= k < 31 ==> line[k] == Cell(ColumnValue(OutFields[k], p, a, t, aff))
  {
    var p, a := paper.fields, author.fields;
    var t, c := GetOr(p, "paper_type", JStr("")).s, a["contact_author"].s;
    var aff := GetOr(a, "affiliations", JObject(map[])).fields;
    assert RowOf(paper, author).value == AuthorRecord(p, a, t, c, aff);
    NameKeysNotColumns();
    forall k | 0 <= k < 31
      ensures RenderRow(OutFields, AuthorRecord(p, a, t, c, aff))[k]
           == Cell(ColumnValue(OutFields[k], p, a, t, aff))
    {
      assert OutFields[k] in OutFields;
      RecordColumn(p, a, t, c, aff, OutFields[k]);
    }
  }

  /** The contact flag column always reads "no": the membership test compares a
      bound method, never a string, with "y" and "yes". */
  lemma ContactColumnNo(paper: Json, author: Json)
    requires RowOf(paper, author).Success?
    ensures var line := RenderRow(OutFields, RowOf(paper, author).value);
      forall k :: 0 <= k < 31 && OutFields[k] == ContactAuthor ==> line[k] == "no"
  {
    PrintedAuthorRow(paper, author);
  }

  /** The `first_name`, `middle_name` and `last_name` columns are always empty. */
  lemma NameColumnsEmpty(paper: Json, author: Json)
    requires RowOf(paper, author).Success?
    ensures var line := RenderRow(OutFields, RowOf(paper, author).value);
      forall k :: 0 <= k < 31 && (OutFields[k].FirstName? || OutFields[k].MiddleName? || OutFields[k].LastName?)
                  ==> line[k] == ""
  {
    PrintedAuthorRow(paper, author);
  }

  /** Column `key` of `line` shows what `d` holds under `field`, copied unchanged:
      `default` when the field is absent, the text of a string, the decimal text
      of an integer, and an empty cell for JSON null (which `csv.writer` writes
      as nothing). */
  predicate PrintsField(line: seq<string>, key: Key, d: map<string, Json>, field: string, default: string)
  {
    forall k :: 0 <= k < |line| && k < |OutFields| && OutFields[k] == key ==>
      && (field !in d ==> line[k] == default)
      && (field in d && d[field].JStr? ==> line[k] == d[field].s)
      && (field in d && d[field].JInt? ==> line[k] == IntToDecimal(d[field].i))
      && (field in d && d[field].JNull? ==> line[k] == "")
  }

  /** The title column shows the paper's `paper_title`. */
  lemma TitleCell(paper: Json, author: Json)
    requires RowOf(paper, author).Success?
    ensures paper.JObject?
    ensures PrintsField(RenderRow(OutFields, RowOf(paper, author).value), TheTitle, paper.fields, "paper_title", "")
  {
    PrintedAuthorRow(paper, author);
  }

  /** The `article_seq_no` column shows the paper's own `sequence_no`. */
  lemma ArticleSeqNoCell(paper: Json, author: Json)
    requires RowOf(paper, author).Success?
    ensures paper.JObject?
    ensures PrintsField(RenderRow(OutFields, RowOf(paper, author).value), ArticleSeqNo, paper.fields, "sequence_no", "")
  {
    PrintedAuthorRow(paper, author);
  }

  /** The start page column always reads "1". */
  lemma StartPageCell(paper: Json, author: Json)
    requires RowOf(paper, author).Success?
    ensures var line := RenderRow(OutFields, RowOf(paper, author).value);
      forall k :: 0 <= k < 31 && OutFields[k] == StartPage ==> line[k] == "1"
  {
    PrintedAuthorRow(paper, author);
  }

  /** The tracking number column is `str()` of `event_tracking_number`: empty
      when absent, the text of a string, the decimal text of an integer, and
      "None" for JSON null. */
  lemma TrackingNumberText(paper: Json, author: Json)
    requires RowOf(paper, author).Success?
    ensures paper.JObject?
    ensures var p, line := paper.fields, RenderRow(OutFields, RowOf(paper, author).value);
      forall k :: 0 <= k < 31 && OutFields[k] == TrackingNumber ==>
        && ("event_tracking_number" !in p ==> line[k] == "")
        && ("event_tracking_number" in p && p["event_tracking_number"].JStr? ==> line[k] == p["event_tracking_number"].s)
        && ("event_tracking_number" in p && p["event_tracking_number"].JInt? ==> line[k] == IntToDecimal(p["event_tracking_number"].i))
        && ("event_tracking_number" in p && p["event_tracking_number"].JNull? ==> line[k] == "None")
  {
    PrintedAuthorRow(paper, author);
  }

  /** The paper type column is the paper's `paper_type` in lower case (empty when
      absent), so a full paper prints "full paper" and a short paper "short paper". */
  lemma PaperTypeText(paper: Json, author: Json)
    requires RowOf(paper, author).Success?
    ensures paper.JObject?
    ensures var p, line := paper.fields, RenderRow(OutFields, RowOf(paper, author).value);
      forall k :: 0 <= k < 31 && OutFields[k] == PaperType ==>
        && ("paper_type" !in p ==> line[k] == "")
        && ("paper_type" in p ==> p["paper_type"].JStr? && line[k] == AsciiLower(p["paper_type"].s))
        && ("paper_type" in p && p["paper_type"] == JStr("Full Paper") ==> line[k] == "full paper")
        && ("paper_type" in p && p["paper_type"] == JStr("Short Paper") ==> line[k] == "short paper")
  {
    PrintedAuthorRow(paper, author);
    AcceptedTypesLowered();
  }

  /** The prefix column shows the author's `prefix`. */
  lemma PrefixCell(paper: Json, author: Json)
    requires RowOf(paper, author).Success?
    ensures author.JObject?
    ensures PrintsField(RenderRow(OutFields, RowOf(paper, author).value), Prefix, author.fields, "prefix", "")
  {
    PrintedAuthorRow(paper, author);
  }

  /** The suffix column shows the author's `suffix`. */
  lemma SuffixCell(paper: Json, author: Json)
    requires RowOf(paper, author).Success?
    ensures author.JObject?
    ensures PrintsField(RenderRow(OutFields, RowOf(paper, author).value), Suffix, author.fields, "suffix", "")
  {
    PrintedAuthorRow(paper, author);
  }

  /** The `author_sequence_no` column shows the author's `sequence_no`, "0" when absent. */
  lemma AuthorSequenceCell(paper: Json, author: Json)
    requires RowOf(paper, author).Success?
    ensures author.JObject?
    ensures PrintsField(RenderRow(OutFields, RowOf(paper, author).value), AuthorSequenceNo, author.fields, "sequence_no", "0")
  {
    PrintedAuthorRow(paper, author);
  }

  /** The `orcid` column shows the author's `ORCID`. */
  lemma OrcidCell(paper: Json, author: Json)
    requires RowOf(paper, author).Success?
    ensures author.JObject?
    ensures PrintsField(RenderRow(OutFields, RowOf(paper, author).value), Orcid, author.fields, "ORCID", "")
  {
    PrintedAuthorRow(paper, author);
  }

  /** The `email` column shows the author's `email_address`. */
  lemma EmailCell(paper: Json, author: Json)
    requires RowOf(paper, author).Success?
    ensures author.JObject?
    ensures PrintsField(RenderRow(OutFields, RowOf(paper, author).value), Email, author.fields, "email_address", "")
  {
    PrintedAuthorRow(paper, author);
  }

  /** The country column shows the author's `country`. */
  lemma CountryCell(paper: Json, author: Json)
    requires RowOf(paper, author).Success?
    ensures author.JObject?
    ensures PrintsField(RenderRow(OutFields, RowOf(paper, author).value), Country, author.fields, "country", "")
  {
    PrintedAuthorRow(paper, author);
  }

  /** The institution column is `affiliations.affiliation`: empty when the author
      has no `affiliations`, or when that dict has no `affiliation`. */
  lemma InstitutionCell(paper: Json, author: Json)
    requires RowOf(paper, author).Success?
    ensures author.JObject?
    ensures "affiliations" in author.fields ==> author.fields["affiliations"].JObject?
    ensures var a, line := author.fields, RenderRow(OutFields, RowOf(paper, author).value);
      && ("affiliations" !in a ==> forall k :: 0 <= k < 31 && OutFields[k] == Institution ==> line[k] == "")
      && ("affiliations" in a ==> PrintsField(line, Institution, a["affiliations"].fields, "affiliation", ""))
  {
    PrintedAuthorRow(paper, author);
  }

  /** The author keys no column reads. */
  const NameKeys: set<string> := {"first_name", "middle_name", "last_name"}

  /** `get` on a key outside `NameKeys` cannot tell apart two dicts that
      differ only in `NameKeys`. */
  lemma GetOrOutside(a: map<string, Json>, b: map<string, Json>, key: string, default: Json)
    requires a - NameKeys == b - NameKeys && key !in NameKeys
    ensures GetOr(a, key, default) == GetOr(b, key, default)
  {
    assert key in a <==> key in a - NameKeys;
    assert key in b <==> key in b - NameKeys;
    if key in a {
      assert a[key] == (a - NameKeys)[key];
      assert b[key] == (b - NameKeys)[key];
    }
  }

  /** Whatever an author's `first_name`, `middle_name` and `last_name` hold,
      the printed line is the same: the names never reach the output. */
  lemma NamesNeverPrinted(paper: Json, author: Json, other: Json)
    requires RowOf(paper, author).Success?
    requires other.JObject? && author.JObject? && author.fields - NameKeys == other.fields - NameKeys
    ensures RowOf(paper, other).Success?
    ensures RenderRow(OutFields, RowOf(paper, other).value) == RenderRow(OutFields, RowOf(paper, author).value)
  {
    var p, a, b := paper.fields, author.fields, other.fields;
    GetOrOutside(a, b, "contact_author", JNull);
    GetOrOutside(a, b, "affiliations", JObject(map[]));
    GetOrOutside(a, b, "prefix", JStr(""));
    GetOrOutside(a, b, "suffix", JStr(""));
    GetOrOutside(a, b, "sequence_no", JStr("0"));
    GetOrOutside(a, b, "ORCID", JStr(""));
    GetOrOutside(a, b, "email_address", JStr(""));
    GetOrOutside(a, b, "country", JStr(""));
    assert RowOf(paper, other).Success?;
    PrintedAuthorRow(paper, author);
    PrintedAuthorRow(paper, other);
    var t, aff := GetOr(p, "paper_type", JStr("")).s, GetOr(a, "affiliations", JObject(map[])).fields;
    forall key: Key ensures ColumnValue(key, p, a, t, aff) == ColumnValue(key, p, b, t, aff) {
    }
  }

  /** The tracking number is printed with `str()`, so reading the column back
      with `int()` gives the number JSON held. */
  lemma TrackingNumberColumn(paper: Json, author: Json, n: int)
    requires RowOf(paper, author).Success?
    requires "event_tracking_number" in paper.fields && paper.fields["event_tracking_number"] == JInt(n)
    ensures var line := RenderRow(OutFields, RowOf(paper, author).value);
      forall k :: 0 <= k < 31 && OutFields[k] == TrackingNumber ==> ParseInt(line[k]) == Some(n)
  {
    PrintedAuthorRow(paper, author);
    IntDecimalRoundTrip(n);
  }

  /** The literal defaults: for an author dict holding nothing but its contact
      flag, the prefix, suffix, ORCID, email, institution and country columns
      print empty and the author sequence number prints "0". */
  lemma AuthorDefaults(paper: Json, contact: string)
    requires RowOf(paper, JObject(map["contact_author" := JStr(contact)])).Success?
    ensures var line := RenderRow(OutFields, RowOf(paper, JObject(map["contact_author" := JStr(contact)])).value);
      forall k :: 0 <= k < 31 ==>
        && (OutFields[k].Prefix? || OutFields[k].Suffix? || OutFields[k].Orcid? ==> line[k] == "")
        && (OutFields[k].Email? || OutFields[k].Institution? || OutFields[k].Country? ==> line[k] == "")
        && (OutFields[k].AuthorSequenceNo? ==> line[k] == "0")
  {
    PrintedAuthorRow(paper, JObject(map["contact_author" := JStr(contact)]));
  }
}
