/**
 * The comma-separated text both import dialogs read and both pages write:
 * lines split on `\n`, blank lines and header lines dropped, fields split on
 * `,` and trimmed, and the first failing line aborting the whole parse.
 */
module Csv {
  import opened Wrappers
  import opened Text
  import opened Lists

  /** `lines.filter(line => line.trim()).filter(line => !line.startsWith(header))` */
  function Keep(lines: seq<string>, header: string): (r: seq<string>)
    ensures |r| <= |lines|
    ensures forall line :: line in r <==> line in lines && !AllSpace(line) && !(header <= line)
  {
    Filter(lines, line => !AllSpace(line) && !(header <= line))
  }

  /** The lines of `content` that are read as records. */
  function DataLines(content: string, header: string): seq<string>
  {
    Keep(Split(content, '\n'), header)
  }

  /** The kept lines keep their order: the filter commutes with concatenation. */
  lemma KeepAppend(a: seq<string>, b: seq<string>, header: string)
    ensures Keep(a + b, header) == Keep(a, header) + Keep(b, header)
  {
    FilterAppend(a, b, line => !AllSpace(line) && !(header <= line));
  }

  /** A single line is kept exactly when it is neither blank nor a header. */
  lemma KeepOne(line: string, header: string)
    ensures Keep([line], header) == if !AllSpace(line) && !(header <= line) then [line] else []
  {
    FilterOne(line, l => !AllSpace(l) && !(header <= l));
  }

  /** Each kept line appears as often as in the input; a blank or header line not at all. */
  lemma KeepCount(lines: seq<string>, header: string, line: string)
    ensures multiset(Keep(lines, header))[line]
            == if !AllSpace(line) && !(header <= line) then multiset(lines)[line] else 0
  {
    FilterCount(lines, l => !AllSpace(l) && !(header <= l), line);
  }

  /** Lines that are neither blank nor headers are all kept, in order. */
  lemma KeepAll(lines: seq<string>, header: string)
    requires forall k :: 0 <= k < |lines| ==> !AllSpace(lines[k]) && !(header <= lines[k])
    ensures Keep(lines, header) == lines
  {
    FilterKeepsAll(lines, line => !AllSpace(line) && !(header <= line));
  }

  /** `line.split(',').map(s => s.trim())` */
  function Fields(line: string): seq<string>
  {
    SplitTrim(line, ',')
  }

  /** Destructuring `const [a, b, ...] = fields`: a missing field reads as empty, which the checks treat alike. */
  function Field(f: seq<string>, k: nat): string
  {
    if k < |f| then f[k] else ""
  }

  /** A value the writers can emit and the readers get back unchanged. */
  predicate Plain(s: string)
  {
    s != "" && IsTrimmed(s) && ',' !in s && '\n' !in s
  }

  /** Fields joined by commas are read back as those fields. */
  lemma FieldsOfJoin(parts: seq<string>)
    requires |parts| >= 1 && forall k :: 0 <= k < |parts| ==> Plain(parts[k])
    ensures Fields(Join(parts, ",")) == parts
  {
    SplitJoin(parts, ',');
    TrimAllTrimmed(parts);
  }

  /** A line of plain fields: not blank, no line break, starting with its first field and a comma. */
  lemma LineOfFields(parts: seq<string>)
    requires |parts| >= 2 && forall k :: 0 <= k < |parts| ==> Plain(parts[k])
    ensures var line := Join(parts, ",");
            && !AllSpace(line) && '\n' !in line
            && line == parts[0] + "," + Join(parts[1..], ",")
  {
    var line := Join(parts, ",");
    assert line[0] == parts[0][0];
    JoinExcludes(parts, ",", '\n');
  }

  /**
   * The records of a list of lines, in order, each line's id drawn by its
   * position; the first line that fails fails the whole parse.
   */
  function ParseAll<T>(lines: seq<string>, parse: (string, string) -> Result<T, string>, newId: nat -> string, k: nat)
    : (r: Result<seq<T>, string>)
    ensures r.Ok? ==> |r.value| == |lines|
    decreases |lines|
  {
    if lines == [] then Ok([])
    else
      match parse(lines[0], newId(k))
      case Err(e) => Err(e)
      case Ok(x) =>
        match ParseAll(lines[1..], parse, newId, k + 1)
        case Err(e) => Err(e)
        case Ok(rest) => Ok([x] + rest)
  }

  /**
   * All or nothing: the parse succeeds exactly when every line does, and then
   * gives one record per line, in order.
   */
  lemma {:induction false} ParseAllOk<T>(lines: seq<string>, parse: (string, string) -> Result<T, string>,
                                         newId: nat -> string, k: nat)
    ensures var r := ParseAll(lines, parse, newId, k);
            && (r.Ok? <==> forall i :: 0 <= i < |lines| ==> parse(lines[i], newId(k + i)).Ok?)
            && (r.Ok? ==> |r.value| == |lines|
                          && forall i :: 0 <= i < |lines| ==> r.value[i] == parse(lines[i], newId(k + i)).value)
    decreases |lines|
  {
    if lines != [] {
      ParseAllOk(lines[1..], parse, newId, k + 1);
      assert forall i :: 1 <= i < |lines| ==> lines[i] == lines[1..][i - 1] && k + i == (k + 1) + (i - 1);
      assert k + 0 == k;
    }
  }

  /** `ParseAllOk` from the first line, where the i-th line gets the i-th id. */
  lemma ParseAllOkFromStart<T>(lines: seq<string>, parse: (string, string) -> Result<T, string>, newId: nat -> string)
    ensures var r := ParseAll(lines, parse, newId, 0);
            && (r.Ok? <==> forall i :: 0 <= i < |lines| ==> parse(lines[i], newId(i)).Ok?)
            && (r.Ok? ==> |r.value| == |lines|
                          && forall i :: 0 <= i < |lines| ==> r.value[i] == parse(lines[i], newId(i)).value)
  {
    ParseAllOk(lines, parse, newId, 0);
  }

  /** `parse` reads `line`, under `id`, as `v`. */
  ghost predicate ParsesTo<T>(parse: (string, string) -> Result<T, string>, line: string, id: string, v: T)
  {
    parse(line, id) == Ok(v)
  }

  /** When each line parses to its value, the whole parse gives those values in order. */
  lemma {:induction false} ParseAllEach<T>(lines: seq<string>, parse: (string, string) -> Result<T, string>,
                                           newId: nat -> string, k: nat, values: seq<T>)
    requires |values| == |lines|
    requires forall i :: 0 <= i < |lines| ==> ParsesTo(parse, lines[i], newId(k + i), values[i])
    ensures ParseAll(lines, parse, newId, k) == Ok(values)
    decreases |lines|
  {
    if lines != [] {
      assert ParsesTo(parse, lines[0], newId(k + 0), values[0]);
      forall i | 0 <= i < |lines[1..]|
        ensures ParsesTo(parse, lines[1..][i], newId(k + 1 + i), values[1..][i])
      {
        assert ParsesTo(parse, lines[i + 1], newId(k + (i + 1)), values[i + 1]);
      }
      ParseAllEach(lines[1..], parse, newId, k + 1, values[1..]);
      assert values == [values[0]] + values[1..];
    }
  }

  /** `ParseAllEach` from the first line, as the importers call it. */
  lemma ParseAllFromStart<T>(lines: seq<string>, parse: (string, string) -> Result<T, string>,
                             newId: nat -> string, values: seq<T>)
    requires |values| == |lines|
    requires forall i :: 0 <= i < |lines| ==> ParsesTo(parse, lines[i], newId(i), values[i])
    ensures ParseAll(lines, parse, newId, 0) == Ok(values)
  {
    forall i | 0 <= i < |lines|
      ensures ParsesTo(parse, lines[i], newId(0 + i), values[i])
    {
      assert 0 + i == i;
    }
    ParseAllEach(lines, parse, newId, 0, values);
  }

  /** Every record of a successful parse is what `parse` made of one of the lines. */
  lemma ParsedFromSomeLine<T>(lines: seq<string>, parse: (string, string) -> Result<T, string>,
                              newId: nat -> string, v: T)
    requires ParseAll(lines, parse, newId, 0).Ok? && v in ParseAll(lines, parse, newId, 0).value
    ensures exists i :: 0 <= i < |lines| && ParsesTo(parse, lines[i], newId(i), v)
  {
    ParseAllOk(lines, parse, newId, 0);
    var r := ParseAll(lines, parse, newId, 0).value;
    var i :| 0 <= i < |r| && r[i] == v;
    assert ParsesTo(parse, lines[i], newId(0 + i), v);
  }

  /** A failed parse reports the error of the first line that fails. */
  lemma {:induction false} ParseAllFirstError<T>(lines: seq<string>, parse: (string, string) -> Result<T, string>,
                                                 newId: nat -> string, k: nat)
    requires ParseAll(lines, parse, newId, k).Err?
    ensures exists i :: 0 <= i < |lines| && parse(lines[i], newId(k + i)) == Err(ParseAll(lines, parse, newId, k).error)
                        && forall j :: 0 <= j < i ==> parse(lines[j], newId(k + j)).Ok?
    decreases |lines|
  {
    var e := ParseAll(lines, parse, newId, k).error;
    if parse(lines[0], newId(k)).Err? {
      assert parse(lines[0], newId(k + 0)) == Err(e);
    } else {
      var rest := lines[1..];
      ParseAllFirstError(rest, parse, newId, k + 1);
      var i :| 0 <= i < |rest| && parse(rest[i], newId(k + 1 + i)) == Err(e)
               && forall j :: 0 <= j < i ==> parse(rest[j], newId(k + 1 + j)).Ok?;
      assert lines[i + 1] == rest[i] && k + (i + 1) == k + 1 + i;
      forall j | 0 <= j < i + 1
        ensures parse(lines[j], newId(k + j)).Ok?
      {
        if j == 0 {
          assert k + j == k;
        } else {
          assert lines[j] == rest[j - 1] && k + j == k + 1 + (j - 1);
        }
      }
    }
  }


  /** What the user picked in the file dialog. */
  datatype File = File(name: string, mimeType: string)

  const NotCsv: string := "Please upload a CSV file"
  const ReadFailed: string := "Failed to read file"

  /** A file is accepted when its type is CSV or its name ends in `.csv`. */
  predicate IsCsvFile(f: File)
  {
    f.mimeType == "text/csv" || (|f.name| >= 4 && f.name[|f.name| - 4..] == ".csv")
  }
}
