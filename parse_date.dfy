/** convertToISODate: a `D/M/Y` string rewritten as `Y-M-D` by splitting on
    '/' and emitting the third, second and first fields joined by '-'. */
module ParseDate {
  import opened Seqs

  /** A destructured field; one past the end of the split is `undefined`,
      which the template string prints as the word "undefined". */
  function FieldOr(fields: seq<string>, i: nat): string {
    if i < |fields| then fields[i] else "undefined"
  }

  function ConvertToISODate(date: string): string {
    var fields := Split(date, '/');
    FieldOr(fields, 2) + "-" + FieldOr(fields, 1) + "-" + FieldOr(fields, 0)
  }

  /** The three fields are copied verbatim, in reverse order: no padding,
      trimming or range check. */
  lemma ReordersFields(day: string, month: string, year: string)
    requires '/' !in day && '/' !in month && '/' !in year
    ensures ConvertToISODate(day + "/" + month + "/" + year) == year + "-" + month + "-" + day
  {
    var fields := [day, month, year];
    assert Join(fields, '/') == day + "/" + month + "/" + year by {
      assert fields[1..] == [month, year] && fields[1..][1..] == [year];
      assert Join([year], '/') == year;
      assert Join([month, year], '/') == month + "/" + year;
    }
    SplitJoin(fields, '/');
  }

  /** Everything after the third '/'-separated field is dropped. */
  lemma DropsExtraFields(day: string, month: string, year: string, rest: string)
    requires '/' !in day && '/' !in month && '/' !in year
    ensures ConvertToISODate(day + "/" + month + "/" + year + "/" + rest) == year + "-" + month + "-" + day
  {
    var tail := Split(rest, '/');
    var fields := [day, month, year] + tail;
    assert forall k :: 0 <= k < |fields| ==> '/' !in fields[k];
    JoinSplit(rest, '/');
    assert Join(fields, '/') == day + "/" + month + "/" + year + "/" + rest by {
      assert fields[1..] == [month, year] + tail;
      assert fields[1..][1..] == [year] + tail;
      assert fields[1..][1..][1..] == tail;
      assert Join([year] + tail, '/') == year + "/" + rest;
      assert Join([month, year] + tail, '/') == month + "/" + year + "/" + rest;
    }
    SplitJoin(fields, '/');
  }

  /** With exactly three fields the output is as long as the input: the two
      separators are replaced one for one. */
  lemma ThreeFieldsKeepLength(date: string)
    requires |Split(date, '/')| == 3
    ensures |ConvertToISODate(date)| == |date|
  {
    var fields := Split(date, '/');
    JoinSplit(date, '/');
    assert fields[1..][1..] == [fields[2]];
    assert Join(fields[1..], '/') == fields[1] + "/" + fields[2];
    assert Join(fields, '/') == fields[0] + "/" + fields[1] + "/" + fields[2];
  }

  /** A date with no '/' has only one field; the other two print as "undefined". */
  lemma MissingFieldsPrintUndefined(date: string)
    requires '/' !in date
    ensures ConvertToISODate(date) == "undefined-undefined-" + date
  {
    assert FindIndex(date, (c: char) => c == '/').None?;
  }
}
