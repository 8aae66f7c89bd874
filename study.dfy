/** The study summary written after the scan rows: the first and last save
    time over all scans, and the rows read from the study's `subject` file. */
module Study {
  import opened Wrappers
  import opened Text
  import opened ParamPatterns
  import opened PatternSpecs
  import opened PatternProperties
  import opened ScanRecord

  // ---------------------------------------------------------------------
  // Start and finish time
  // ---------------------------------------------------------------------

  /** The earliest and the latest save time of a study. */
  datatype TimeSpan = TimeSpan(start: int, finish: int)

  /** The save times of the scans in list order. A scan whose save time was
      never parsed still holds the blank text, and comparing it with a
      timestamp (or taking `.date()` of it) raises: no times then. */
  function SaveTimes(scans: seq<Record>): (r: Option<seq<int>>)
    ensures r.Some? <==> forall i :: 0 <= i < |scans| ==> HasSaveTime(scans[i])
    ensures r.Some? ==>
      && |r.value| == |scans|
      && forall i :: 0 <= i < |scans| ==> r.value[i] == scans[i].parameters["SaveTime"].stamp
  {
    if scans == [] then Some([])
    else
      var last := scans[|scans| - 1];
      match SaveTimes(scans[..|scans| - 1])
      case None => None
      case Some(times) =>
        if HasSaveTime(last) then Some(times + [last.parameters["SaveTime"].stamp]) else None
  }

  predicate HasSaveTime(rec: Record) {
    "SaveTime" in rec.parameters && rec.parameters["SaveTime"].Time?
  }

  /** The loop over the scan list: `minTime` starts at the first save time,
      `maxTime` at the last, and each time either lowers the minimum or, only
      if it did not, raises the maximum. An empty list has no first element
      (`acqpList[0]` raises), so there is no span. */
  method SaveTimeRange(times: seq<int>) returns (r: Option<TimeSpan>)
    ensures r.None? <==> times == []
    ensures r.Some? ==> r.value.start in times && r.value.finish in times
    ensures r.Some? ==> forall t :: t in times ==> r.value.start <= t <= r.value.finish
    ensures r.Some? ==> Elapsed(r.value) >= 0
  {
    if times == [] {
      return None;
    }
    var minTime := times[0];
    var maxTime := times[|times| - 1];
    var k := 0;
    while k < |times|
      invariant 0 <= k <= |times|
      invariant minTime in times && maxTime in times
      invariant forall j :: 0 <= j < k ==> minTime <= times[j] <= maxTime
      invariant k == 0 ==> minTime == times[0]
      invariant 0 < k ==> minTime <= maxTime
    {
      var t := times[k];
      if t < minTime {
        minTime := t;
      } else if t > maxTime {
        maxTime := t;
      }
      k := k + 1;
    }
    return Some(TimeSpan(minTime, maxTime));
  }

  /** `maxTime - minTime`, in the unit of the timestamps. */
  function Elapsed(span: TimeSpan): (r: int)
    ensures r >= 0 <==> span.start <= span.finish
  {
    span.finish - span.start
  }

  // ---------------------------------------------------------------------
  // Study information
  // ---------------------------------------------------------------------

  /** One row of the CSV writer: its cells. `writerow('')` writes the empty row. */
  type Row = seq<string>

  /** The study-information rows in order, and the lines printed for the
      optional fields that are missing. */
  datatype StudyInfo = StudyInfo(rows: seq<Row>, notices: seq<string>)

  /** The two subject fields without which `.group(1)` is taken of `None`. */
  datatype SubjectFailure = NoSubjectId | NoStudyName

  const SubjectId := Template(AngleText, "##$SUBJECT_id")
  const StudyName := Template(AngleText, "##$SUBJECT_study_name")
  const SubjectSex := Template(AngleText, "##$SUBJECT_sex")
  const SubjectWeight := Template(OneFloat, "##$SUBJECT_weight")
  const SubjectRemarks := Template(Comment, "##$SUBJECT_remarks")
  const StudyComment := Template(Comment, "##$SUBJECT_comment")

  /** A row fits on one line of the file: no cell holds a line break. */
  predicate OneLine(row: Row) {
    forall cell :: cell in row ==> '\n' !in cell
  }

  /** A row `[caption, '', value]` for a field read through group 1: the
      middle cell is empty and the value is group 1 without its line
      breaks. */
  function ValueRow(caption: string, m: Match): (row: Row)
    requires '\n' !in caption
    ensures OneLine(row) && |row| == 3 && Labelled(row, caption)
    ensures row[1] == "" && row[2] == StripNewlines(m.group1)
  {
    [caption, "", StripNewlines(m.group1)]
  }

  /** A comment row: the whole match (group 0) when there is one, the label
      alone otherwise. */
  function CommentRow(caption: string, subjectText: string, m: Option<Match>): (row: Row)
    requires '\n' !in caption
    ensures OneLine(row) && Labelled(row, caption) && (|row| == 1 <==> m.None?)
  {
    if m.Some? then [caption, "", StripNewlines(Group0(subjectText, m.value))] else [caption]
  }

  /** The notice printed when an optional field is missing. */
  function MissingNotice(message: string, m: Option<Match>): seq<string> {
    if m.None? then [message] else []
  }

  /** A row that starts with the given caption. */
  predicate Labelled(row: Row, caption: string) {
    0 < |row| && row[0] == caption
  }

  /** What the search returns for the four fields the program does without. */
  datatype OptionalFields = OptionalFields(
    sex: Option<Match>, weight: Option<Match>, remarks: Option<Match>, comment: Option<Match>)

  /** How many optional fields are missing. */
  function MissingCount(opt: OptionalFields): nat {
    (if opt.sex.None? then 1 else 0) + (if opt.weight.None? then 1 else 0)
    + (if opt.remarks.None? then 1 else 0) + (if opt.comment.None? then 1 else 0)
  }

  /** The rows written once the subject and the study name were found. The
      sex row is always written (empty when there is no sex), the weight row
      only when there is a weight, the two comment rows always. */
  function StudyRows(subjectText: string, id: Match, name: Match, opt: OptionalFields): (rows: seq<Row>)
    ensures |rows| == if opt.weight.Some? then 6 else 5
    ensures forall i :: 0 <= i < |rows| ==> OneLine(rows[i])
  {
    var subject := ValueRow("Subject ID:", id);
    var study := ValueRow("Study Name:", name);
    var sex := if opt.sex.Some? then ValueRow("Sex:", opt.sex.value) else [];
    var remarks := CommentRow("Subject Comments:", subjectText, opt.remarks);
    var comment := CommentRow("Study Comments:", subjectText, opt.comment);
    if opt.weight.Some? then
      [subject, study, sex, ValueRow("Weight:", opt.weight.value), remarks, comment]
    else
      [subject, study, sex, remarks, comment]
  }

  /** The rows that are always written keep their places: the subject and
      study name first, the sex row third (empty when there is no sex), the
      two comment rows last (the caption alone when there is no comment);
      the weight row, when there is one, fourth. */
  lemma StudyRowsLayout(subjectText: string, id: Match, name: Match, opt: OptionalFields)
    ensures var rows := StudyRows(subjectText, id, name, opt);
      && Labelled(rows[0], "Subject ID:") && Labelled(rows[1], "Study Name:")
      && (rows[2] == [] <==> opt.sex.None?)
      && (opt.weight.Some? ==> Labelled(rows[3], "Weight:"))
      && Labelled(rows[|rows| - 2], "Subject Comments:")
      && Labelled(rows[|rows| - 1], "Study Comments:")
      && (|rows[|rows| - 2]| == 1 <==> opt.remarks.None?)
      && (|rows[|rows| - 1]| == 1 <==> opt.comment.None?)
  {
  }

  /** What each row holds: the subject, the study name, the sex and the
      weight rows carry group 1 of their match without line breaks after an
      empty cell, and a comment row carries the whole match without line
      breaks, or its caption alone. */
  lemma StudyRowsCells(subjectText: string, id: Match, name: Match, opt: OptionalFields)
    ensures var rows := StudyRows(subjectText, id, name, opt);
      && rows[0] == ["Subject ID:", "", StripNewlines(id.group1)]
      && rows[1] == ["Study Name:", "", StripNewlines(name.group1)]
      && rows[2] == (if opt.sex.Some? then ["Sex:", "", StripNewlines(opt.sex.value.group1)] else [])
      && (opt.weight.Some? ==> rows[3] == ["Weight:", "", StripNewlines(opt.weight.value.group1)])
      && rows[|rows| - 2] == CommentRow("Subject Comments:", subjectText, opt.remarks)
      && rows[|rows| - 1] == CommentRow("Study Comments:", subjectText, opt.comment)
  {
  }

  const NoSex := "No sex specified\n"
  const NoWeight := "No weight specified\n"
  const NoRemarks := "No subject comments specified\n"
  const NoComment := "No study comments specified\n"

  /** The lines printed for the missing optional fields: one per missing
      field, and none for a field that was found. */
  function StudyNotices(opt: OptionalFields): (notices: seq<string>)
    ensures |notices| == MissingCount(opt)
    ensures NoSex in notices <==> opt.sex.None?
    ensures NoWeight in notices <==> opt.weight.None?
    ensures NoRemarks in notices <==> opt.remarks.None?
    ensures NoComment in notices <==> opt.comment.None?
  {
    MissingNotice(NoSex, opt.sex) + MissingNotice(NoWeight, opt.weight)
    + MissingNotice(NoRemarks, opt.remarks) + MissingNotice(NoComment, opt.comment)
  }

  /** The four optional lookups. */
  function FindOptional(find: Finder, subjectText: string): OptionalFields {
    OptionalFields(
      find(subjectText, SubjectSex), find(subjectText, SubjectWeight),
      find(subjectText, SubjectRemarks), find(subjectText, StudyComment))
  }

  /** The subject lookups, in the order the program writes them; `find` is
      the regular-expression search. A missing subject or study name is
      fatal, and the subject is looked up first. */
  function ReadStudyInfo(find: Finder, subjectText: string): (r: Result<StudyInfo, SubjectFailure>)
    ensures r.Err? <==> find(subjectText, SubjectId).None? || find(subjectText, StudyName).None?
    ensures r.Err? ==> (r.error == NoSubjectId <==> find(subjectText, SubjectId).None?)
    ensures r.Ok? ==>
      && |r.value.rows| == (if find(subjectText, SubjectWeight).Some? then 6 else 5)
      && (forall i :: 0 <= i < |r.value.rows| ==> OneLine(r.value.rows[i]))
      && |r.value.notices| == MissingCount(FindOptional(find, subjectText))
      && (NoSex in r.value.notices <==> find(subjectText, SubjectSex).None?)
      && (NoWeight in r.value.notices <==> find(subjectText, SubjectWeight).None?)
      && (NoRemarks in r.value.notices <==> find(subjectText, SubjectRemarks).None?)
      && (NoComment in r.value.notices <==> find(subjectText, StudyComment).None?)
      && r.value.notices == StudyNotices(FindOptional(find, subjectText))
    ensures r.Ok? ==>
      && r.value.rows[0] == ["Subject ID:", "", StripNewlines(find(subjectText, SubjectId).value.group1)]
      && r.value.rows[1] == ["Study Name:", "", StripNewlines(find(subjectText, StudyName).value.group1)]
      && (r.value.rows[2] == [] <==> find(subjectText, SubjectSex).None?)
      && (find(subjectText, SubjectSex).Some? ==>
            r.value.rows[2] == ["Sex:", "", StripNewlines(find(subjectText, SubjectSex).value.group1)])
      && (find(subjectText, SubjectWeight).Some? ==>
            r.value.rows[3] == ["Weight:", "", StripNewlines(find(subjectText, SubjectWeight).value.group1)])
  {
    var id := find(subjectText, SubjectId);
    if id.None? then Err(NoSubjectId)
    else
      var name := find(subjectText, StudyName);
      if name.None? then Err(NoStudyName)
      else
        var opt := FindOptional(find, subjectText);
        StudyRowsCells(subjectText, id.value, name.value, opt);
        Ok(StudyInfo(StudyRows(subjectText, id.value, name.value, opt), StudyNotices(opt)))
  }

  /** The last two rows of a successful lookup are the two comment rows:
      each the whole comment match without line breaks, or its caption
      alone when the comment is missing. */
  lemma ReadStudyInfoComments(find: Finder, subjectText: string)
    requires ReadStudyInfo(find, subjectText).Ok?
    ensures var rows := ReadStudyInfo(find, subjectText).value.rows;
      && 2 <= |rows|
      && rows[|rows| - 2] == CommentRow("Subject Comments:", subjectText, find(subjectText, SubjectRemarks))
      && rows[|rows| - 1] == CommentRow("Study Comments:", subjectText, find(subjectText, StudyComment))
  {
    StudyRowsCells(subjectText, find(subjectText, SubjectId).value, find(subjectText, StudyName).value, FindOptional(find, subjectText));
  }

  /** Taking the line breaks out of a text that starts with a line without
      one and ends with a character other than a line break keeps both. */
  lemma StripKeepsEnds(head: string, middle: string, last: char)
    requires '\n' !in head && last != '\n'
    ensures var v := StripNewlines(head + middle + [last]);
      |head| + 1 <= |v| && v[..|head|] == head && v[|v| - 1] == last
  {
    StripNewlinesAppend(head + middle, [last]);
    StripNewlinesAppend(head, middle);
    assert StripNewlines([last]) == [last];
  }

  /** The whole match of a comment field: the field name, `=`, text, and
      the closing `>`. */
  predicate CommentShaped(subjectText: string, m: Match, name: string) {
    var g0 := Group0(subjectText, m);
    |name| + 2 <= |g0| && g0[..|name| + 1] == name + "=" && g0[|g0| - 1] == '>'
  }

  /** A comment match found at i, with its field name and `=` from i to j. */
  lemma CommentAtShaped(subjectText: string, i: nat, j: nat, name: string)
    requires i <= j <= |subjectText| && j == i + |name| + 1
    requires subjectText[i..j] == name + "="
    ensures var m := CommentAt(subjectText, i, j);
      m.Some? ==> CommentShaped(subjectText, m.value, name)
  {
    var m := CommentAt(subjectText, i, j);
    if m.Some? {
      CommentCaptures(subjectText, i, j);
      var e := m.value.end;
      var q :| j <= q <= e - 1 && CommentLine(subjectText, j, q, e - 1);
      var g0 := Group0(subjectText, m.value);
      assert g0 == subjectText[i..e];
      assert g0[..|name| + 1] == subjectText[i..j];
      assert g0[|g0| - 1] == subjectText[e - 1] == '>';
    }
  }

  /** With the program's search, the whole match of a comment field is the
      field name, `=`, and everything up to the closing `>`. */
  lemma CommentMatchText(subjectText: string, name: string)
    ensures var m := Search(subjectText, Template(Comment, name));
      m.Some? ==> CommentShaped(subjectText, m.value, name)
  {
    var p := Template(Comment, name);
    var m := Search(subjectText, p);
    if m.Some? {
      var i := m.value.start;
      var j := i + |Anchor(p)|;
      SearchAfterAnchor(subjectText, p);
      assert CommentAt(subjectText, i, j) == m;
      assert LiteralAt(subjectText, i, Anchor(p));
      CommentAtShaped(subjectText, i, j, name);
    }
  }

  /** A comment cell, when the field is found, is its whole match with the
      line breaks taken out: it still starts with the field name and `=`
      and ends with the closing `>`. */
  lemma CommentCellText(caption: string, subjectText: string, m: Match, name: string)
    requires '\n' !in caption && '\n' !in name && CommentShaped(subjectText, m, name)
    ensures var row := CommentRow(caption, subjectText, Some(m));
      && |row| == 3 && |name| + 2 <= |row[2]|
      && row[2][..|name| + 1] == name + "="
      && row[2][|row[2]| - 1] == '>'
  {
    var g0 := Group0(subjectText, m);
    var k := |name| + 1;
    assert g0 == g0[..k] + g0[k..|g0| - 1] + [g0[|g0| - 1]];
    StripKeepsEnds(g0[..k], g0[k..|g0| - 1], g0[|g0| - 1]);
  }
}
