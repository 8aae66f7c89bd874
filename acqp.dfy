/** The per-scan record of py_acqp.py: class `Acqp` keeps two dictionaries,
    `parameters` and its reportable subset `csvParameters`, and
    `readParameters` fills them one field at a time from the acqp and method
    texts of a scan.

    Every field read is a row of a table (`EarlyReads`, `LateReads`) giving
    the key, the pattern, the text searched, how group 1 is turned into a
    value, and what happens when the search finds nothing. The functions
    `Step`, `RunReads` and `Extract` say what reading does to the record;
    the class `Acqp` does it in place, field by field, and is proved to agree
    with them. */
module ScanRecord {
  import opened Wrappers
  import opened Text
  import opened ParamPatterns

  /** A dictionary value: text captured from a file, the number the CSV copy
      starts `ScanNumber` with, or a parsed save time. */
  datatype Value = Text(text: string) | Number(n: int) | Time(stamp: int)

  /** The date parser (`dateutil.parser.parse`) is not modelled: it is a
      parameter that maps the captured text to a timestamp, or fails. */
  type DateParser = string -> Option<int>

  /** The regular-expression search. The specification functions take it as
      a parameter, so that what they say about reading a table holds for any
      search; the class `Acqp` passes `Search`. */
  type Finder = (string, Pattern) -> Option<Match>

  datatype Source = AcqpText | MethodText

  /** How group 1 of a match becomes the stored value. */
  datatype Decode =
    | AsIs        // match.group(1)
    | StripNl     // match.group(1).replace('\n', '')
    | ParseDate   // parser.parse(match.group(1))

  /** What happens when the search finds nothing. */
  datatype Absent =
    | Abort                // `.search(...).group(1)` on None raises
    | Notice(msg: string)  // prints msg, stores ''
    | Silent               // stores '' without a message

  datatype FieldRead = FieldRead(key: string, pattern: Pattern, source: Source, decode: Decode, absent: Absent)

  /** Why extraction stopped: the search of an unguarded field found nothing,
      or the save time could not be parsed as a date. */
  datatype Failure = Missing(key: string) | Unparsable(key: string)

  datatype Outcome = Completed | EarlyReturn | Fatal(failure: Failure)

  /** The two dictionaries and the printed notices. */
  datatype Record = Record(parameters: map<string, Value>, csv: map<string, Value>, notices: seq<string>)

  /** Where reading a table stopped: the record so far and, when it stopped
      early, why. */
  datatype Progress = Progress(rec: Record, failure: Option<Failure>)

  datatype Extraction = Extraction(rec: Record, outcome: Outcome)

  // ---------------------------------------------------------------------
  // The dictionaries of __init__ and the CSV field names

  /** The keys of `parameters`. */
  const ParamKeys: set<string> := {
    "ScanNumber", "PulseProg", "acqProtocol", "refPower", "ReceiverGain",
    "RepTime", "EchoTime", "nEchoes", "RecovTime", "nSlices", "nSlicePacks",
    "FOV", "Matrix", "SliceThick", "SliceSep", "SliceList", "SliceOffset",
    "SlicePackOffset", "ReadOffset", "PhaseOffset", "nAverages",
    "ImageOrient", "SlicepackVec", "nEvolutionCycles", "nRepetitions",
    "EvolutionDelay", "FlipAngle", "IdealFAat", "BasicFreq", "SpecWidth",
    "ExcitationPulse", "RefocusingPulse", "PulseShape", "ReadOutDir",
    "RareFactor", "FatSat", "Gating", "wordType", "rawWordType", "ByteOrder",
    "SaveTime", "Filename", "MusWt", "subjOrientHF", "subjOrientSP", "PVver",
    "Major PV ver", "dwiBvals", "dwiA0", "FlowDir", "Venc"}

  /** The keys of `csvParameters`. */
  const CsvKeys: set<string> := {
    "ScanNumber", "acqProtocol", "refPower", "ReceiverGain", "RepTime",
    "EchoTime", "nEchoes", "nSlices", "FOV", "Matrix", "SliceThick",
    "SliceSep", "nAverages", "ImageOrient", "nEvolutionCycles",
    "nRepetitions", "SlicePackOffset", "ReadOutDir", "ReadOffset",
    "PhaseOffset", "RareFactor", "ExcitationPulse", "RefocusingPulse",
    "SpecWidth", "FatSat", "Gating", "FlipAngle", "SaveTime", "FlowDir",
    "Venc"}

  /** The columns of the study CSV file (their order is not modelled). */
  const Fieldnames: set<string> := {
    "ScanNumber", "acqProtocol", "RepTime", "EchoTime", "FlipAngle",
    "RareFactor", "nEchoes", "FOV", "Matrix", "nSlices", "SliceThick",
    "SliceSep", "nAverages", "nEvolutionCycles", "nRepetitions", "FatSat",
    "Gating", "ImageOrient", "SlicePackOffset", "ReadOutDir", "ReadOffset",
    "PhaseOffset", "ExcitationPulse", "RefocusingPulse", "SpecWidth",
    "refPower", "ReceiverGain", "SaveTime", "FlowDir", "Venc"}

  const Blank: Value := Text("")

  /** `parameters` as __init__ builds it: ScanNumber is the constructor
      argument and every other entry is ''. */
  function InitialParameters(scanNum: string): (m: map<string, Value>)
    ensures m.Keys == ParamKeys
    ensures m["ScanNumber"] == Text(scanNum)
    ensures forall k :: k in m && k != "ScanNumber" ==> m[k] == Blank
  {
    map k | k in ParamKeys :: if k == "ScanNumber" then Text(scanNum) else Blank
  }

  /** `csvParameters` as __init__ builds it: ScanNumber is 0 and every other
      entry is ''. */
  function InitialCsv(): (m: map<string, Value>)
    ensures m.Keys == CsvKeys
    ensures m["ScanNumber"] == Number(0)
    ensures forall k :: k in m && k != "ScanNumber" ==> m[k] == Blank
  {
    map k | k in CsvKeys :: if k == "ScanNumber" then Number(0) else Blank
  }

  /** Every key of `csvParameters` is a key of `parameters`. */
  lemma CsvKeysAreParameterKeys()
    ensures CsvKeys <= ParamKeys
  {
  }

  /** The object as __init__ leaves it: both dictionaries, no notices. */
  function InitialRecord(scanNum: string): (rec: Record)
    ensures rec.csv.Keys <= rec.parameters.Keys
  {
    CsvKeysAreParameterKeys();
    Record(InitialParameters(scanNum), InitialCsv(), [])
  }

  // ---------------------------------------------------------------------
  // The field table of readParameters, in source order

  function Guarded(key: string): Absent {
    Notice(key + " not found, leaving blank")
  }

  /** A guarded field whose notice names it. */
  function GuardedRead(key: string, pattern: Pattern, source: Source, decode: Decode): FieldRead {
    FieldRead(key, pattern, source, decode, Guarded(key))
  }

  /** The table before the singlepulse check. */
  const EarlyReads: seq<FieldRead> := [
    FieldRead("PulseProg", Template(AngleText, "##$PULPROG"), AcqpText, AsIs, Abort),
    FieldRead("RepTime", Template(FloatArray, "##$ACQ_repetition_time"), AcqpText, StripNl, Abort),
    FieldRead("nAverages", Template(OneFloat, "##$PVM_NAverages"), MethodText, AsIs, Abort),
    GuardedRead("acqProtocol", Template(AngleText, "##$ACQ_protocol_name"), AcqpText, AsIs),
    GuardedRead("nRepetitions", Template(OneFloat, "##$PVM_NRepetitions"), MethodText, AsIs),
    FieldRead("SaveTime", OwnerSaveTime, MethodText, ParseDate, Abort)]

  /** The table after the singlepulse check, up to the PV version. */
  const LateReads: seq<FieldRead> := [
    GuardedRead("refPower", Template(OneFloat, "##$PVM_RefPowCh1"), MethodText, AsIs),
    FieldRead("ReceiverGain", Template(OneFloat, "##$RG"), AcqpText, AsIs, Abort),
    FieldRead("EchoTime", Template(FloatArray, "##$ACQ_echo_time"), AcqpText, StripNl, Abort),
    FieldRead("RecovTime", Template(FloatArray, "##$ACQ_recov_time"), AcqpText, StripNl, Abort),
    FieldRead("nEchoes", Template(OneFloat, "##$NECHOES"), AcqpText, AsIs, Abort),
    FieldRead("nSlices", Template(FloatArray, "##$PVM_SPackArrNSlices"), MethodText, StripNl, Abort),
    FieldRead("nSlicePacks", Template(OneFloat, "##$PVM_NSPacks"), MethodText, AsIs, Abort),
    FieldRead("FOV", Template(FloatArray, "##$PVM_Fov"), MethodText, StripNl, Abort),
    FieldRead("Matrix", Template(FloatArray, "##$PVM_Matrix"), MethodText, StripNl, Abort),
    FieldRead("SliceThick", Template(OneFloat, "##$PVM_SliceThick"), MethodText, AsIs, Abort),
    FieldRead("SliceSep", Template(FloatArray, "##$PVM_SPackArrSliceGap"), MethodText, StripNl, Abort),
    FieldRead("SliceList", Template(FloatArray, "##$PVM_ObjOrderList"), MethodText, StripNl, Abort),
    FieldRead("SliceOffset", Template(FloatArray, "##$PVM_SliceOffset"), MethodText, StripNl, Abort),
    FieldRead("SlicePackOffset", Template(FloatArray, "##$PVM_SPackArrSliceOffset"), MethodText, StripNl, Abort),
    FieldRead("ReadOffset", Template(FloatArray, "##$PVM_ReadOffset"), MethodText, StripNl, Abort),
    FieldRead("PhaseOffset", Template(FloatArray, "##$PVM_Phase1Offset"), MethodText, StripNl, Abort),
    FieldRead("ImageOrient", Template(TextArray, "##$PVM_SPackArrSliceOrient"), MethodText, StripNl, Abort),
    GuardedRead("nEvolutionCycles", Template(OneFloat, "##$PVM_NEvolutionCycles"), MethodText, AsIs),
    FieldRead("FlipAngle", Template(OneFloat, "##$ACQ_flip_angle"), AcqpText, AsIs, Abort),
    FieldRead("BasicFreq", Template(OneFloat, "##$BF1"), AcqpText, AsIs, Abort),
    FieldRead("SpecWidth", Template(OneFloat, "##$SW_h"), AcqpText, AsIs, Abort),
    FieldRead("ExcitationPulse", Template(OneLineAngleText, "##$ExcPulse1Enum"), MethodText, AsIs, Silent),
    GuardedRead("RefocusingPulse", Template(OneLineAngleText, "##$RefPulse1Enum"), MethodText, AsIs),
    FieldRead("ReadOutDir", Template(TextArray, "##$PVM_SPackArrReadOrient"), MethodText, StripNl, Abort),
    // The message names nEvolutionCycles, as in the source.
    FieldRead("RareFactor", Template(OneFloat, "##$PVM_RareFactor"), MethodText, StripNl, Guarded("nEvolutionCycles")),
    GuardedRead("FatSat", Template(OneLineText, "##$PVM_FatSupOnOff"), MethodText, StripNl),
    GuardedRead("Gating", Template(OneLineText, "##$PVM_TriggerModule"), MethodText, StripNl),
    FieldRead("ByteOrder", Template(OneLineText, "##$BYTORDA"), AcqpText, AsIs, Abort),
    GuardedRead("FlowDir", Template(OneLineText, "##$FlowEncodingDirection"), MethodText, AsIs),
    GuardedRead("Venc", Template(OneFloat, "##$FlowRange"), MethodText, AsIs)]

  const VersionNotice: string := "PVver not found, leaving blank"

  // ---------------------------------------------------------------------
  // What one read does

  function TextOf(r: FieldRead, acqpText: string, methodText: string): string {
    if r.source == AcqpText then acqpText else methodText
  }

  function Capture(r: FieldRead, find: Finder, acqpText: string, methodText: string): Option<Match> {
    find(TextOf(r, acqpText, methodText), r.pattern)
  }

  /** The value stored for group 1, or None when the date parser fails. */
  function Decoded(d: Decode, g: string, parse: DateParser): (v: Option<Value>)
    ensures d != ParseDate ==> v.Some? && v.value.Text? && |v.value.text| <= |g|
    ensures d == StripNl ==> '\n' !in v.value.text
    ensures d == AsIs ==> v == Some(Text(g))
    ensures d == ParseDate ==> (v.Some? <==> parse(g).Some?)
  {
    match d
    case AsIs => Some(Text(g))
    case StripNl => Some(Text(StripNewlines(g)))
    case ParseDate => match parse(g) case Some(t) => Some(Time(t)) case None => None
  }

  /** A read succeeds when its search finds a match whose group 1 decodes,
      or when its search finds nothing and the field is guarded. */
  predicate Succeeds(r: FieldRead, find: Finder, acqpText: string, methodText: string, parse: DateParser) {
    match Capture(r, find, acqpText, methodText)
    case Some(m) => Decoded(r.decode, m.group1, parse).Some?
    case None => r.absent != Abort
  }

  /** v is what a successful read of r stores for its key: the decoded
      group 1 when the search finds a match, and '' when it finds none. */
  predicate StoresValue(r: FieldRead, find: Finder, acqpText: string, methodText: string, parse: DateParser, v: Value) {
    match Capture(r, find, acqpText, methodText)
    case Some(m) => Decoded(r.decode, m.group1, parse) == Some(v)
    case None => v == Blank
  }

  /** The notice a successful read of r adds: its message when the search
      finds nothing and the field announces that, and none otherwise. */
  function NoticeOf(r: FieldRead, find: Finder, acqpText: string, methodText: string): seq<string> {
    if Capture(r, find, acqpText, methodText).None? && r.absent.Notice? then [r.absent.msg] else []
  }

  /** One field read: store the decoded capture, or '' (with the notice of
      a guarded field), or fail. */
  function Step(rec: Record, r: FieldRead, find: Finder, acqpText: string, methodText: string, parse: DateParser): (res: Result<Record, Failure>)
    ensures res.Ok? <==> Succeeds(r, find, acqpText, methodText, parse)
    ensures res.Ok? ==> res.value.csv == rec.csv
    ensures res.Ok? ==> res.value.parameters.Keys == rec.parameters.Keys + {r.key}
    ensures res.Ok? ==> forall k :: k in rec.parameters && k != r.key ==> res.value.parameters[k] == rec.parameters[k]
    ensures res.Ok? ==> StoresValue(r, find, acqpText, methodText, parse, res.value.parameters[r.key])
    ensures res.Ok? ==> res.value.notices == rec.notices + NoticeOf(r, find, acqpText, methodText)
    ensures res.Err? ==> res.error.key == r.key
    ensures res.Err? ==> if Capture(r, find, acqpText, methodText).None? then res.error.Missing? && r.absent == Abort
                         else res.error.Unparsable? && r.decode == ParseDate
  {
    match Capture(r, find, acqpText, methodText)
    case Some(m) =>
      (match Decoded(r.decode, m.group1, parse)
       case Some(v) => Ok(rec.(parameters := rec.parameters[r.key := v]))
       case None => Err(Unparsable(r.key)))
    case None =>
      (match r.absent
       case Abort => Err(Missing(r.key))
       case Notice(msg) => Ok(rec.(parameters := rec.parameters[r.key := Blank], notices := rec.notices + [msg]))
       case Silent => Ok(rec.(parameters := rec.parameters[r.key := Blank])))
  }

  /** The table in order, stopping at the first that fails. A table never
      touches `csvParameters` and loses no key of `parameters`. */
  function RunReads(rec: Record, table: seq<FieldRead>, find: Finder, acqpText: string, methodText: string, parse: DateParser): (p: Progress)
    ensures p.rec.csv == rec.csv
    ensures rec.parameters.Keys <= p.rec.parameters.Keys
    decreases |table|
  {
    if table == [] then Progress(rec, None)
    else
      var prev := RunReads(rec, table[..|table| - 1], find, acqpText, methodText, parse);
      if prev.failure.Some? then prev
      else match Step(prev.rec, table[|table| - 1], find, acqpText, methodText, parse)
        case Ok(next) => Progress(next, None)
        case Err(f) => Progress(prev.rec, Some(f))
  }

  /** The PV version read: groups 1 and 2 of the version pattern, or '' for
      both with a notice. */
  function VersionStep(rec: Record, find: Finder, acqpText: string): (res: Record)
    ensures res.csv == rec.csv
    ensures res.parameters.Keys == rec.parameters.Keys + {"PVver", "Major PV ver"}
    ensures forall k :: k in rec.parameters && k != "PVver" && k != "Major PV ver" ==> res.parameters[k] == rec.parameters[k]
  {
    match find(acqpText, SwVersion)
    case Some(m) =>
      rec.(parameters := rec.parameters["PVver" := Text(m.group1)]["Major PV ver" := Text(m.group2)])
    case None =>
      rec.(parameters := rec.parameters["PVver" := Blank]["Major PV ver" := Blank], notices := rec.notices + [VersionNotice])
  }

  /** The final loop: every key of `csvParameters` takes the value that
      `parameters` holds for it. */
  function CopyCsv(rec: Record): (res: Record)
    requires rec.csv.Keys <= rec.parameters.Keys
    ensures res.parameters == rec.parameters && res.notices == rec.notices
    ensures res.csv.Keys == rec.csv.Keys
    ensures forall k :: k in res.csv ==> res.csv[k] == rec.parameters[k]
  {
    rec.(csv := map k | k in rec.csv :: rec.parameters[k])
  }

  /** `'singlepulse' in self.parameters['PulseProg'].lower()`. */
  predicate IsSinglePulse(rec: Record) {
    "PulseProg" in rec.parameters && rec.parameters["PulseProg"].Text?
    && Contains(Lower(rec.parameters["PulseProg"].text), "singlepulse")
  }

  /** The check ignores case: a program name holding `singlepulse` in any
      mix of upper and lower case is a singlepulse program. */
  lemma SinglePulseAnyCase(rec: Record, word: string)
    requires Lower(word) == "singlepulse"
    requires "PulseProg" in rec.parameters && rec.parameters["PulseProg"].Text?
    requires Contains(rec.parameters["PulseProg"].text, word)
    ensures IsSinglePulse(rec)
  {
    LowerKeepsContains(rec.parameters["PulseProg"].text, word);
  }

  /** readParameters as a whole: the early table, the singlepulse check, the
      late table, the PV version and the CSV copy. */
  function Extract(rec: Record, find: Finder, acqpText: string, methodText: string, parse: DateParser): (x: Extraction)
    requires rec.csv.Keys <= rec.parameters.Keys
    ensures rec.parameters.Keys <= x.rec.parameters.Keys
    ensures x.outcome != Completed ==> x.rec.csv == rec.csv
    ensures x.outcome == EarlyReturn ==> IsSinglePulse(x.rec)
  {
    ExtractWith(rec, EarlyReads, LateReads, find, acqpText, methodText, parse)
  }

  /** The same steps with the two tables as parameters. */
  function ExtractWith(rec: Record, earlyReads: seq<FieldRead>, lateReads: seq<FieldRead>,
                       find: Finder, acqpText: string, methodText: string, parse: DateParser): (x: Extraction)
    requires rec.csv.Keys <= rec.parameters.Keys
    ensures rec.parameters.Keys <= x.rec.parameters.Keys
    ensures x.outcome != Completed ==> x.rec.csv == rec.csv
    ensures x.outcome == EarlyReturn ==> IsSinglePulse(x.rec)
  {
    var early := RunReads(rec, earlyReads, find, acqpText, methodText, parse);
    if early.failure.Some? then Extraction(early.rec, Fatal(early.failure.value))
    else if IsSinglePulse(early.rec) then Extraction(early.rec, EarlyReturn)
    else
      var late := RunReads(early.rec, lateReads, find, acqpText, methodText, parse);
      if late.failure.Some? then Extraction(late.rec, Fatal(late.failure.value))
      else Extraction(CopyCsv(VersionStep(late.rec, find, acqpText)), Completed)
  }

  // ---------------------------------------------------------------------
  // The class

  class Acqp {
    var parameters: map<string, Value>
    var csvParameters: map<string, Value>
    var notices: seq<string>

    function Contents(): Record
      reads this
    {
      Record(parameters, csvParameters, notices)
    }

    /** The dictionaries keep the keys __init__ gives them. */
    predicate Valid()
      reads this
    {
      && parameters.Keys == ParamKeys
      && csvParameters.Keys == CsvKeys
    }

    constructor (scanNum: string)
      ensures Contents() == InitialRecord(scanNum)
      ensures Valid()
    {
      parameters := InitialParameters(scanNum);
      csvParameters := InitialCsv();
      notices := [];
    }

    /** One field read, as `Step` describes it; a failed read changes
        nothing. */
    method ReadField(r: FieldRead, find: Finder, acqpText: string, methodText: string, parse: DateParser)
      returns (failure: Option<Failure>)
      modifies this
      ensures failure.None? ==> Step(old(Contents()), r, find, acqpText, methodText, parse) == Ok(Contents())
      ensures failure.Some? ==> Step(old(Contents()), r, find, acqpText, methodText, parse) == Err(failure.value)
      ensures failure.Some? ==> Contents() == old(Contents())
    {
      failure := None;
      var m := find(if r.source == AcqpText then acqpText else methodText, r.pattern);
      if m.Some? {
        var v := Decoded(r.decode, m.value.group1, parse);
        if v.Some? {
          parameters := parameters[r.key := v.value];
        } else {
          failure := Some(Unparsable(r.key));
        }
      } else if r.absent.Abort? {
        failure := Some(Missing(r.key));
      } else {
        parameters := parameters[r.key := Blank];
        if r.absent.Notice? {
          notices := notices + [r.absent.msg];
        }
      }
    }

    /** Reads the rows of a table in order, stopping at the first that fails. */
    method ReadFields(table: seq<FieldRead>, find: Finder, acqpText: string, methodText: string, parse: DateParser)
      returns (failure: Option<Failure>)
      modifies this
      ensures RunReads(old(Contents()), table, find, acqpText, methodText, parse) == Progress(Contents(), failure)
    {
      ghost var start := Contents();
      failure := None;
      var k := 0;
      while k < |table|
        invariant 0 <= k <= |table|
        invariant failure.None?
        invariant RunReads(start, table[..k], find, acqpText, methodText, parse) == Progress(Contents(), None)
      {
        assert table[..k + 1][..k] == table[..k];
        failure := ReadField(table[k], find, acqpText, methodText, parse);
        if failure.Some? {
          RunReadsStops(start, table, k + 1, find, acqpText, methodText, parse);
          return;
        }
        k := k + 1;
      }
      assert table[..k] == table;
    }

    /** Reads the PV version into PVver and Major PV ver. */
    method ReadVersion(acqpText: string)
      modifies this
      ensures Contents() == VersionStep(old(Contents()), Search, acqpText)
    {
      var m := Search(acqpText, SwVersion);
      if m.Some? {
        parameters := parameters["PVver" := Text(m.value.group1)];
        parameters := parameters["Major PV ver" := Text(m.value.group2)];
      } else {
        parameters := parameters["PVver" := Blank];
        parameters := parameters["Major PV ver" := Blank];
        notices := notices + [VersionNotice];
      }
    }

    /** `for p in self.csvParameters.keys(): self.csvParameters[p] = self.parameters[p]`;
        the keys are taken in any order, which does not change the result. */
    method CopyToCsv()
      requires Valid()
      modifies this
      ensures Valid()
      ensures Contents() == CopyCsv(old(Contents()))
    {
      CsvKeysAreParameterKeys();
      assert csvParameters.Keys <= parameters.Keys;
      var todo := csvParameters.Keys;
      while todo != {}
        invariant todo <= csvParameters.Keys == old(csvParameters).Keys <= parameters.Keys
        invariant parameters == old(parameters) && notices == old(notices)
        invariant forall key :: key in csvParameters ==>
          csvParameters[key] == if key in todo then old(csvParameters)[key] else parameters[key]
        decreases |todo|
      {
        var key :| key in todo;
        csvParameters := csvParameters[key := parameters[key]];
        todo := todo - {key};
      }
    }

    /** readParameters: fills the record from the two texts, or returns
        early for a singlepulse program, or stops at a fatal read. */
    method ReadParameters(acqpText: string, methodText: string, parse: DateParser)
      returns (outcome: Outcome)
      requires Valid()
      modifies this
      ensures Valid()
      ensures Extraction(Contents(), outcome) == Extract(old(Contents()), Search, acqpText, methodText, parse)
    {
      ghost var start := Contents();
      CsvKeysAreParameterKeys();
      TableKeysAreParameterKeys();
      RunReadsKeepsKeys(start, EarlyReads, Search, acqpText, methodText, parse);
      var failure := ReadFields(EarlyReads, Search, acqpText, methodText, parse);
      ghost var early := Contents();
      RunReadsKeepsKeys(early, LateReads, Search, acqpText, methodText, parse);
      if failure.Some? {
        return Fatal(failure.value);
      }
      if "PulseProg" in parameters && parameters["PulseProg"].Text?
        && Contains(Lower(parameters["PulseProg"].text), "singlepulse")
      {
        return EarlyReturn;
      }
      failure := ReadFields(LateReads, Search, acqpText, methodText, parse);
      if failure.Some? {
        return Fatal(failure.value);
      }
      VersionStepKeepsKeys(Contents(), Search, acqpText);
      ReadVersion(acqpText);
      CopyToCsv();
      outcome := Completed;
    }
  }

  /** Both tables write only keys that __init__ gives `parameters`. */
  lemma TableKeysAreParameterKeys()
    ensures KeysOf(EarlyReads) <= ParamKeys
    ensures KeysOf(LateReads) <= ParamKeys
  {
    assert forall i :: 0 <= i < |EarlyReads| ==> EarlyReads[i].key in ParamKeys;
    assert forall i :: 0 <= i < |LateReads| ==> LateReads[i].key in ParamKeys;
  }

  /** A record whose dictionaries have the keys of __init__ keeps them
      through a table of reads and through the version read. */
  lemma RunReadsKeepsKeys(rec: Record, table: seq<FieldRead>, find: Finder, acqpText: string, methodText: string, parse: DateParser)
    requires rec.parameters.Keys == ParamKeys && rec.csv.Keys == CsvKeys
    requires KeysOf(table) <= ParamKeys
    ensures var out := RunReads(rec, table, find, acqpText, methodText, parse).rec;
      out.parameters.Keys == ParamKeys && out.csv.Keys == CsvKeys
  {
    RunReadsFrame(rec, table, find, acqpText, methodText, parse);
  }

  lemma VersionStepKeepsKeys(rec: Record, find: Finder, acqpText: string)
    requires rec.parameters.Keys == ParamKeys && rec.csv.Keys == CsvKeys
    ensures var out := VersionStep(rec, find, acqpText);
      out.parameters.Keys == ParamKeys && out.csv.Keys == CsvKeys
  {
  }

  /** Once a prefix of the table has failed, the whole run has failed there. */
  lemma {:induction false} RunReadsStops(rec: Record, table: seq<FieldRead>, k: nat, find: Finder, acqpText: string, methodText: string, parse: DateParser)
    requires k <= |table|
    requires RunReads(rec, table[..k], find, acqpText, methodText, parse).failure.Some?
    ensures RunReads(rec, table, find, acqpText, methodText, parse) == RunReads(rec, table[..k], find, acqpText, methodText, parse)
    decreases |table| - k
  {
    if k < |table| {
      assert table[..k + 1][..k] == table[..k];
      RunReadsStops(rec, table, k + 1, find, acqpText, methodText, parse);
    } else {
      assert table[..k] == table;
    }
  }

  /** The keys a table of table writes. */
  function KeysOf(table: seq<FieldRead>): set<string> {
    set i | 0 <= i < |table| :: table[i].key
  }

  lemma KeysOfLast(table: seq<FieldRead>)
    requires table != []
    ensures KeysOf(table) == KeysOf(table[..|table| - 1]) + {table[|table| - 1].key}
  {
    var init := table[..|table| - 1];
    forall k | k in KeysOf(init) ensures k in KeysOf(table) {
      var i :| 0 <= i < |init| && init[i].key == k;
      assert table[i].key == k;
    }
  }

  /** Reading a table adds only the keys of the table to `parameters`. */
  lemma {:induction false} RunReadsFrame(rec: Record, table: seq<FieldRead>, find: Finder, acqpText: string, methodText: string, parse: DateParser)
    ensures RunReads(rec, table, find, acqpText, methodText, parse).rec.parameters.Keys <= rec.parameters.Keys + KeysOf(table)
    decreases |table|
  {
    if table != [] {
      RunReadsFrame(rec, table[..|table| - 1], find, acqpText, methodText, parse);
      KeysOfLast(table);
    }
  }

  /** Reading a table changes no entry outside its keys. */
  lemma {:induction false} RunReadsKeepsOthers(rec: Record, table: seq<FieldRead>, find: Finder, acqpText: string, methodText: string, parse: DateParser)
    ensures var out := RunReads(rec, table, find, acqpText, methodText, parse).rec;
      forall k :: k in rec.parameters && k !in KeysOf(table) ==> k in out.parameters && out.parameters[k] == rec.parameters[k]
    decreases |table|
  {
    if table != [] {
      RunReadsKeepsOthers(rec, table[..|table| - 1], find, acqpText, methodText, parse);
      KeysOfLast(table);
    }
  }

  /** After a pass over the table that fails nowhere, the key of row k
      holds what that row's read stores, when no later row reads the same
      key. */
  lemma {:induction false} RunReadsStores(rec: Record, table: seq<FieldRead>, k: nat, find: Finder, acqpText: string, methodText: string, parse: DateParser)
    requires k < |table|
    requires forall j :: k < j < |table| ==> table[j].key != table[k].key
    requires RunReads(rec, table, find, acqpText, methodText, parse).failure.None?
    ensures var out := RunReads(rec, table, find, acqpText, methodText, parse).rec;
      table[k].key in out.parameters
      && StoresValue(table[k], find, acqpText, methodText, parse, out.parameters[table[k].key])
    decreases |table|
  {
    var init := table[..|table| - 1];
    if k < |init| {
      assert init[k] == table[k];
      RunReadsStores(rec, init, k, find, acqpText, methodText, parse);
    }
  }
}
