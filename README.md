# EasyChair to ACM proceedings CSV, modelled in Dafny

`bin/easychair_acm_data_convert.py` reads an EasyChair e-rights export (JSON) and
writes the ACM proceedings CSV: a 31-column header, then one line per author of
every paper whose type is exactly `Full Paper` or `Short Paper`. This project
models the class `ACM_Convert` and its main block:

- `Setup` fixes the column list `out_fields` and empties the row accumulator.
- `Load` takes `rawinput['erights_record']['paper']`. That value must be a non-empty
  list, or the run exits with code 1. `Load` then tallies the paper types in a `Counter`.
- `Add_Author` builds one row dict, key by key, from a paper and an author, and appends it.
- `Convert` skips papers of other types and hands every author of the rest to `Add_Author`.
  The author field may be a single dict or a list.
- `Print` projects each row onto `out_fields`. A key the row lacks prints as an empty cell.

Files:

- `py_json.dfy` (module `PyJson`): the values `json.load` returns, plus the Python
  built-ins the script applies to them. These are subscripting, `dict.get`, iteration,
  `str()` and `str.lower()`. `ParseInt` models `int()` only to state that the
  tracking number column reads back as the number it came from. Exceptions are values of `Error`: `KeyError`,
  `TypeError`, `AttributeError(attribute)` and `SystemExit(code)`.
- `easychair_acm.dfy` (module `EasychairAcm`) has two layers.
  - Specification functions say what each stage produces: `PaperList`, `Census`, `RowOf`,
    `PaperRows`, `ConvertRows`, `RenderRow` and `Pipeline`. A stage that raises stops
    there, and the functions record the exception.
  - The class `Converter` has the script's fields (`rawinput`, `outFields`, `outCsv`,
    `papers`, `types`). Its methods change them step by step, with loops, and each
    method is proved to agree with its specification function.
  - `ConvertPaper` is one pass of the loop in `Convert`, split out as a method of its own.
  - Row keys are the enumeration `Key`, and `Key.Name` gives each key's spelling in the script.
- `easychair_acm_properties.dfy` (module `EasychairAcmProperties`): properties of the
  census, of which papers produce rows, how many and in what order, and of the whole run.
- `easychair_acm_columns.dfy` (module `EasychairAcmColumns`): what each of the 31
  columns of a printed line holds.

The model follows the code as written, including two places where the code
does not do what its authors evidently meant:

- The contact flag is always `no`. Line 97 tests `x.lower in ('y', 'yes')` without
  calling `lower`, so a bound method is compared with two strings.
  - A `contact_author` that is missing, `null`, or not a string raises `AttributeError`.
- The `first_name`, `middle_name` and `last_name` columns are always empty. `Add_Author`
  stores the names under the keys `first`, `middle` and `last` (lines 92-94), and no
  column reads those keys.

`out_fields` has 31 columns (line 64).

A missing `erights_record` or `paper` key raises `KeyError`, and a non-dict on the
way raises `TypeError`. Only a `paper` value that is not a list, or is an empty list,
reaches `self.exit(1)` at line 79 (the model's `SystemExit(1)`). The `KeyError` and
`TypeError` go uncaught, which also ends the process with status 1, after a traceback.

## Model

| member | source | states |
|---|---|---|
| PyJson.Iterate | bin/easychair_acm_data_convert.py:116 | a `for` loop over a list visits its items, a string yields its characters as one-character strings in order, anything else raises |
| PyJson.AsciiLower | bin/easychair_acm_data_convert.py:89 | same length, no upper-case letter left, other characters unchanged, each upper-case letter shifted to its lower-case form |
| PyJson.NatDecimalRoundTrip | bin/easychair_acm_data_convert.py:88 | `str()` of a natural number is all decimal digits and reads back as the same number |
| PyJson.IntDecimalRoundTrip | bin/easychair_acm_data_convert.py:88 | `int(str(n)) == n` for every integer, negative ones included |
| EasychairAcm.PaperList | bin/easychair_acm_data_convert.py:76-81 | succeeds exactly when `erights_record.paper` is a list of length at least 1; once both keys exist, failure is exit code 1 |
| EasychairAcm.CensusStops | bin/easychair_acm_data_convert.py:83-84 | after the first paper whose type cannot be counted, later papers change neither the counter nor the exception |
| EasychairAcm.ContactFlag | bin/easychair_acm_data_convert.py:97-100 | the flag computed by the membership test is always "no" |
| EasychairAcm.RowOf | bin/easychair_acm_data_convert.py:86-106 | `Add_Author` produces a row exactly when the paper and author are dicts, `paper_type` is absent or a string, `contact_author` is present and a string, and `affiliations` is absent or a dict; a missing `contact_author` raises `AttributeError` |
| EasychairAcm.AuthorRowsStep | bin/easychair_acm_data_convert.py:116-117 | one more author appends that author's row or records its exception |
| EasychairAcm.ConvertRowsStep | bin/easychair_acm_data_convert.py:110-117 | one more paper appends that paper's rows after the rows so far |
| EasychairAcm.AuthorRowsStops | bin/easychair_acm_data_convert.py:116-117 | after the first author that raises, later authors change nothing |
| EasychairAcm.ConvertRowsStops | bin/easychair_acm_data_convert.py:110-117 | after the first paper that raises, later papers change nothing |
| EasychairAcm.RenderRow | bin/easychair_acm_data_convert.py:123 | one cell per column; a column the row lacks is empty; a string value prints as itself |
| EasychairAcm.Header | bin/easychair_acm_data_convert.py:121 | the header has one cell per column, cell k being the spelling of column k |
| EasychairAcm.RenderRows | bin/easychair_acm_data_convert.py:122-123 | one printed line per row, line i being row i rendered |
| EasychairAcm.Converter.constructor | bin/easychair_acm_data_convert.py:39-50 | a new converter has no columns, no rows, no papers and an empty counter |
| EasychairAcm.Converter.Setup | bin/easychair_acm_data_convert.py:63-65 | the columns are `out_fields`, 31 of them, and the accumulator is empty |
| EasychairAcm.Converter.Load | bin/easychair_acm_data_convert.py:67-84 | on a valid document `papers` is the paper list and `types` the census of its types, with the census exception if any; otherwise papers and counter are unchanged and the error is returned |
| EasychairAcm.Converter.AddAuthor | bin/easychair_acm_data_convert.py:86-107 | appends exactly the row `RowOf` gives and changes no earlier row; on an exception nothing is appended |
| EasychairAcm.Converter.ConvertPaper | bin/easychair_acm_data_convert.py:111-117 | appends the rows of one paper, per author in order, and returns the paper's exception if any |
| EasychairAcm.Converter.Convert | bin/easychair_acm_data_convert.py:109-117 | appends the rows of all papers in paper order and returns the first exception |
| EasychairAcm.Converter.Print | bin/easychair_acm_data_convert.py:119-123 | the lines written are the header followed by one line per accumulated row, in order |
| EasychairAcm.RunConverter | bin/easychair_acm_data_convert.py:130-136 | Setup, Load, Convert and Print in turn give the table `Pipeline` specifies, or the exception that ended the run |
| EasychairAcmProperties.TypeCountAppend | bin/easychair_acm_data_convert.py:83-84 | counting a type over a paper list extended by one paper adds 1 exactly when that paper has the type |
| EasychairAcmProperties.CensusSucceedsIff | bin/easychair_acm_data_convert.py:83-84 | the census completes exactly when every paper has a hashable `paper_type` |
| EasychairAcmProperties.CensusCountsTypes | bin/easychair_acm_data_convert.py:82-84 | after a complete census, `types[t]` is the number of papers of type `t`, and the counter holds exactly the types that occur |
| EasychairAcmProperties.AuthorRowsSucceedIff | bin/easychair_acm_data_convert.py:116-117 | the authors of a list all become rows exactly when none of them makes `Add_Author` raise |
| EasychairAcmProperties.AuthorRowsContent | bin/easychair_acm_data_convert.py:116-117 | without an exception, the j-th row is the row of the j-th author, one row per author |
| EasychairAcmProperties.PaperSucceedsIff | bin/easychair_acm_data_convert.py:110-117 | one paper raises exactly when it is not `Convertible` |
| EasychairAcmProperties.PaperRowsShape | bin/easychair_acm_data_convert.py:111-117 | a paper of another type gives no rows and no exception; otherwise one row per author, in author order |
| EasychairAcmProperties.ConvertSucceedsIff | bin/easychair_acm_data_convert.py:109-117 | `Convert` raises exactly when some paper is not `Convertible` |
| EasychairAcmProperties.ConvertRowCount | bin/easychair_acm_data_convert.py:109-117 | without an exception, the number of rows is the number of authors of the full and short papers (1 for a dict author field) |
| EasychairAcmProperties.ConvertRowsSplit | bin/easychair_acm_data_convert.py:110-117 | a complete conversion is that of all papers but the last, followed by the rows of the last |
| EasychairAcmProperties.ConvertRowOrder | bin/easychair_acm_data_convert.py:110-117 | the row of author j of paper i sits right after the rows of all earlier papers and earlier authors |
| EasychairAcmProperties.EarlierPaperRow | bin/easychair_acm_data_convert.py:110-117 | the row position above, for a paper before the last |
| EasychairAcmProperties.LastPaperRow | bin/easychair_acm_data_convert.py:110-117 | the row position above, for the last paper |
| EasychairAcmProperties.RejectedPapersAddNothing | bin/easychair_acm_data_convert.py:111-112 | removing every paper of another type beforehand changes neither the rows nor the outcome |
| EasychairAcmProperties.AcceptedTypesLowered | bin/easychair_acm_data_convert.py:89 | the two accepted types lower-case to "full paper" and "short paper" |
| EasychairAcmProperties.RowsAreFullOrShortPapers | bin/easychair_acm_data_convert.py:89-111 | every row appended has paper type "full paper" or "short paper" |
| EasychairAcmProperties.PaperRowsMembers | bin/easychair_acm_data_convert.py:111-117 | a row of a paper comes from a full or short paper and is `RowOf` of one of the authors `Convert` visits for it |
| EasychairAcmProperties.AuthorRowsMembers | bin/easychair_acm_data_convert.py:116-117 | a row made for a list of authors is `RowOf` of one element of that list |
| EasychairAcmProperties.PipelineSucceedsIff | bin/easychair_acm_data_convert.py:130-136 | a run prints a table exactly when the paper list is valid, every type is hashable and every paper is `Convertible`; otherwise it prints nothing |
| EasychairAcmProperties.PipelineTable | bin/easychair_acm_data_convert.py:119-123 | the printed table is the header, then one line per expected row, every line 31 cells wide |
| EasychairAcmProperties.TableLine | bin/easychair_acm_data_convert.py:109-123 | in the table printed for a paper list, line `1 + ExpectedRowCount(papers[..i]) + j` renders the row of author j of paper i |
| EasychairAcmProperties.PipelineLine | bin/easychair_acm_data_convert.py:130-136 | the same for a whole run: each data line of the output is the rendered row of its paper and author |
| EasychairAcmColumns.NameKeysNotColumns | bin/easychair_acm_data_convert.py:92-94 | the keys `first`, `middle` and `last` are none of the 31 columns: no header cell is spelled "first", "middle" or "last" |
| EasychairAcmColumns.NotNameKey | bin/easychair_acm_data_convert.py:92-94 | no key but the three name keys is spelled "first", "middle" or "last" |
| EasychairAcmColumns.HeaderSpelling | bin/easychair_acm_data_convert.py:64 | the header line is exactly the 31 names of `out_fields`, in order |
| EasychairAcmColumns.TitleCell | bin/easychair_acm_data_convert.py:90 | the title column shows the paper's `paper_title` (empty or the default when absent, the text of a string, the decimal text of an integer, empty for null) |
| EasychairAcmColumns.StartPageCell | bin/easychair_acm_data_convert.py:105 | the start page column is always "1" |
| EasychairAcmColumns.ArticleSeqNoCell | bin/easychair_acm_data_convert.py:106 | the `article_seq_no` column shows the paper's `sequence_no` (empty or the default when absent, the text of a string, the decimal text of an integer, empty for null) |
| EasychairAcmColumns.TrackingNumberText | bin/easychair_acm_data_convert.py:88 | the tracking number column is empty when `event_tracking_number` is absent, the text of a string, the decimal text of an integer, and "None" for null |
| EasychairAcmColumns.PaperTypeText | bin/easychair_acm_data_convert.py:89 | the type column is the paper's `paper_type` lower-cased, empty when absent; a full paper prints "full paper", a short paper "short paper" |
| EasychairAcmColumns.PrefixCell | bin/easychair_acm_data_convert.py:91 | the prefix column shows the author's `prefix` (empty or the default when absent, the text of a string, the decimal text of an integer, empty for null) |
| EasychairAcmColumns.SuffixCell | bin/easychair_acm_data_convert.py:95 | the suffix column shows the author's `suffix` (empty or the default when absent, the text of a string, the decimal text of an integer, empty for null) |
| EasychairAcmColumns.AuthorSequenceCell | bin/easychair_acm_data_convert.py:96 | the `author_sequence_no` column shows the author's `sequence_no` ("0" when absent, the text of a string, the decimal text of an integer, empty for null) |
| EasychairAcmColumns.OrcidCell | bin/easychair_acm_data_convert.py:101 | the `orcid` column shows the author's `ORCID` (empty or the default when absent, the text of a string, the decimal text of an integer, empty for null) |
| EasychairAcmColumns.EmailCell | bin/easychair_acm_data_convert.py:102 | the `email` column shows the author's `email_address` (empty or the default when absent, the text of a string, the decimal text of an integer, empty for null) |
| EasychairAcmColumns.InstitutionCell | bin/easychair_acm_data_convert.py:103 | the institution column shows `affiliations.affiliation`, empty when the author has no `affiliations` or that dict has no `affiliation` |
| EasychairAcmColumns.CountryCell | bin/easychair_acm_data_convert.py:104 | the country column shows the author's `country` (empty or the default when absent, the text of a string, the decimal text of an integer, empty for null) |
| EasychairAcmColumns.PrintedAuthorRow | bin/easychair_acm_data_convert.py:123 | the line printed for an author has 31 cells, each the printed form of that column's `ColumnValue` |
| EasychairAcmColumns.ContactColumnNo | bin/easychair_acm_data_convert.py:97-100 | the printed contact column is always "no" |
| EasychairAcmColumns.NameColumnsEmpty | bin/easychair_acm_data_convert.py:92-94 | the printed `first_name`, `middle_name` and `last_name` columns are always empty |
| EasychairAcmColumns.GetOrOutside | bin/easychair_acm_data_convert.py:91-104 | `get` on a key other than the three name keys gives the same value for two dicts that differ only in the name keys |
| EasychairAcmColumns.NamesNeverPrinted | bin/easychair_acm_data_convert.py:92-94 | changing an author's `first_name`, `middle_name` or `last_name` leaves the printed line unchanged |
| EasychairAcmColumns.TrackingNumberColumn | bin/easychair_acm_data_convert.py:88 | an integer `event_tracking_number` is printed so that `int()` reads back the same number |
| EasychairAcmColumns.AuthorDefaults | bin/easychair_acm_data_convert.py:91-104 | for an author holding only its contact flag, prefix, suffix, ORCID, email, institution and country print empty and the sequence number prints "0" |

## Left out

- Command-line parsing, the `--pdb` hook, opening the input file and `json.load` (lines 39-53, 68-74): `Load` receives the parsed document, so the exit on malformed JSON is not modelled.
- `csv.writer` quoting and escaping, writing to standard output, `eprint`, `sys.exit` and its status (lines 35-36, 120, 125-128, 136): `Print` returns the lines as lists of cells, and an exit is an `Error` value.
- The commented-out configuration loading (lines 42-43, 55-61) and the example dict at the top of the file (lines 3-24): neither is live code.
- JSON numbers with a fraction or an exponent (Python floats) are not among the `Json` values.
- PyJson.PyStr: `str()` of a list or a dict is Python's `repr`, which the model does not spell out; such a cell prints as the empty string.
- PyJson.AsciiLower: lower-cases ASCII letters only, where `str.lower` is Unicode-aware. `Add_Author` runs only for papers whose type is exactly `Full Paper` or `Short Paper`, so the stored value is unaffected.
- EasychairAcm.Census: keys the counter by `Json` value. Python's `Counter` also merges keys that compare equal across types, such as `True` and `1`; that merging is not modelled.
- JSON objects are maps, so key order and duplicate keys in the input are not modelled.
- Exceptions carry only their kind and the key or attribute involved, not Python's message text.
- Joining a review table, mapping tracks to sections and sequencing papers by first author belong to a variant script that is not part of this model.
